/**
 Which column types count as json: exactly the names json and jsonb in any
 capitalisation, with blanks around and anything from a parenthesis on behind.
 */
module JsonType {
  import opened Wrappers
  import opened Rows

  predicate Blanks(s: string) {
    forall c <- s :: IsSpace(c)
  }

  // Starts and ends with something else than a blank.
  predicate Solid(s: string) {
    s != "" && !IsSpace(s[0]) && !IsSpace(s[|s| - 1])
  }

  predicate Bracketed(s: string) {
    s == "" || s[0] == '('
  }

  predicate Splits(pgType: string, before: string, word: string, after: string, rest: string) {
    && pgType == before + (word + (after + rest))
    && Blanks(before) && Blanks(after) && Bracketed(rest)
    && (Lower(word) == "json" || Lower(word) == "jsonb")
  }

  // ---------- trimming ----------

  lemma {:induction false} TrimLeftParts(s: string) returns (blanks: string)
    ensures s == blanks + TrimLeft(s) && Blanks(blanks)
    ensures TrimLeft(s) != "" ==> !IsSpace(TrimLeft(s)[0])
    decreases |s|
  {
    if s != "" && IsSpace(s[0]) {
      var more := TrimLeftParts(s[1..]);
      blanks := [s[0]] + more;
      assert s == [s[0]] + s[1..];
    } else {
      blanks := "";
    }
  }

  lemma {:induction false} TrimRightParts(s: string) returns (blanks: string)
    ensures s == TrimRight(s) + blanks && Blanks(blanks)
    ensures TrimRight(s) != "" ==> !IsSpace(TrimRight(s)[|TrimRight(s)| - 1])
    decreases |s|
  {
    if s != "" && IsSpace(s[|s| - 1]) {
      var more := TrimRightParts(s[..|s| - 1]);
      blanks := more + [s[|s| - 1]];
      assert s == s[..|s| - 1] + [s[|s| - 1]];
    } else {
      blanks := "";
    }
  }

  lemma {:induction false} TrimLeftOf(blanks: string, s: string)
    requires Blanks(blanks) && (s == "" || !IsSpace(s[0]))
    ensures TrimLeft(blanks + s) == s
    decreases |blanks|
  {
    if blanks == "" {
      assert blanks + s == s;
    } else {
      assert blanks[0] in blanks && (blanks + s)[1..] == blanks[1..] + s;
      TrimLeftOf(blanks[1..], s);
    }
  }

  lemma {:induction false} TrimRightOf(s: string, blanks: string)
    requires Blanks(blanks) && (s == "" || !IsSpace(s[|s| - 1]))
    ensures TrimRight(s + blanks) == s
    decreases |blanks|
  {
    if blanks == "" {
      assert s + blanks == s;
    } else {
      var n := |blanks| - 1;
      assert blanks[n] in blanks && (s + blanks)[..|s + blanks| - 1] == s + blanks[..n];
      TrimRightOf(s, blanks[..n]);
    }
  }

  lemma {:induction false} UpToParts(s: string, stop: char) returns (rest: string)
    ensures s == UpTo(s, stop) + rest && stop !in UpTo(s, stop) && (rest == "" || rest[0] == stop)
    decreases |s|
  {
    if s == "" || s[0] == stop {
      rest := s;
    } else {
      rest := UpToParts(s[1..], stop);
      assert s == [s[0]] + s[1..];
    }
  }

  lemma {:induction false} UpToOf(head: string, rest: string, stop: char)
    requires stop !in head && (rest == "" || rest[0] == stop)
    ensures UpTo(head + rest, stop) == head
    decreases |head|
  {
    if head == "" {
      assert head + rest == rest;
    } else {
      assert (head + rest)[1..] == head[1..] + rest;
      UpToOf(head[1..], rest, stop);
    }
  }

  // ---------- lower case ----------

  lemma LowerParts(s: string, head: string, rest: string)
    requires Lower(s) == head + rest
    ensures Lower(s[..|head|]) == head && Lower(s[|head|..]) == rest
  {
    assert |s| == |head| + |rest|;
    forall i | 0 <= i < |head| ensures Lower(s[..|head|])[i] == head[i] {
      assert Lower(s)[i] == (head + rest)[i];
    }
    forall i | 0 <= i < |rest| ensures Lower(s[|head|..])[i] == rest[i] {
      assert Lower(s)[|head| + i] == (head + rest)[|head| + i];
    }
  }

  lemma LowerConcat(a: string, b: string)
    ensures Lower(a + b) == Lower(a) + Lower(b)
  {
  }

  // Blanks and parentheses are no letters.
  lemma LowerKeeps(s: string)
    ensures Blanks(Lower(s)) <==> Blanks(s)
    ensures Bracketed(Lower(s)) <==> Bracketed(s)
    ensures '(' in Lower(s) <==> '(' in s
  {
    assert |Lower(s)| == |s|;
    forall i | 0 <= i < |s|
      ensures (IsSpace(Lower(s)[i]) <==> IsSpace(s[i])) && (Lower(s)[i] == '(' <==> s[i] == '(')
      ensures Lower(s)[i] in Lower(s) && s[i] in s
    {
    }
  }

  // ---------- the names ----------

  // The name once it is trimmed and in lower case, up to its parenthesis.
  lemma HeadOf(word: string, after: string, rest: string)
    requires word == "json" || word == "jsonb"
    requires Blanks(after) && Bracketed(rest)
    ensures TrimRight(TrimLeft(UpTo(word + (after + rest), '('))) == word
  {
    var head := word + after;
    assert head + rest == word + (after + rest);
    assert '(' !in head;
    UpToOf(head, rest, '(');
    TrimLeftOf("", head);
    assert "" + head == head;
    TrimRightOf(word, after);
  }

  lemma TrimmedName(before: string, word: string, after: string, rest: string) returns (gap: string, tail: string)
    requires Blanks(before) && Blanks(after) && Bracketed(rest) && Solid(word)
    ensures Blanks(gap) && Bracketed(tail)
    ensures TrimRight(TrimLeft(before + (word + (after + rest)))) == word + (gap + tail)
  {
    var name := word + (after + rest);
    TrimLeftOf(before, name);
    if rest == "" {
      gap, tail := "", "";
      assert name == word + after && word + (gap + tail) == word;
      TrimRightOf(word, after);
    } else {
      var blanks := TrimRightParts(rest);
      gap, tail := after, TrimRight(rest);
      StaysBracketed(rest, tail, blanks);
      var kept := word + (gap + tail);
      assert name == kept + blanks && kept[|kept| - 1] == tail[|tail| - 1];
      TrimRightOf(kept, blanks);
    }
  }

  lemma StaysBracketed(rest: string, tail: string, blanks: string)
    requires rest != "" && Bracketed(rest) && rest == tail + blanks && Blanks(blanks)
    ensures tail != "" && Bracketed(tail)
  {
    if blanks != "" {
      assert blanks[0] in blanks;
    }
    assert tail == "" ==> blanks == rest;
  }

  lemma JsonWord(word: string)
    requires Lower(word) == "json" || Lower(word) == "jsonb"
    ensures Solid(word)
  {
    LowerKeeps(word);
    var n := |word| - 1;
    assert |Lower(word)| == |word|;
    assert Lower(word)[0] == 'j' && (Lower(word)[n] == 'n' || Lower(word)[n] == 'b');
  }

  lemma SplitsIsJson(pgType: string, before: string, word: string, after: string, rest: string)
    requires Splits(pgType, before, word, after, rest)
    ensures IsJsonType(pgType)
  {
    JsonWord(word);
    var gap, tail := TrimmedName(before, word, after, rest);
    LowerConcat(word, gap + tail);
    LowerConcat(gap, tail);
    LowerKeeps(gap);
    LowerKeeps(tail);
    HeadOf(Lower(word), Lower(gap), Lower(tail));
  }

  // The parts of a trimmed name, read off its lower-case form.
  lemma PartsOf(name: string, a: string, w: string, b: string, r: string)
    returns (before: string, word: string, after: string, rest: string)
    requires Lower(name) == a + (w + (b + r)) && Blanks(a) && Blanks(b) && Bracketed(r)
    ensures name == before + (word + (after + rest))
    ensures Lower(word) == w && Blanks(before) && Blanks(after) && Bracketed(rest)
  {
    LowerParts(name, a, w + (b + r));
    before := name[..|a|];
    var n1 := name[|a|..];
    LowerParts(n1, w, b + r);
    word := n1[..|w|];
    var n2 := n1[|w|..];
    LowerParts(n2, b, r);
    after, rest := n2[..|b|], n2[|b|..];
    LowerKeeps(before);
    LowerKeeps(after);
    LowerKeeps(rest);
  }

  lemma LowParts(low: string) returns (x: string, w: string, y: string, r: string)
    ensures w == TrimRight(TrimLeft(UpTo(low, '(')))
    ensures low == x + (w + (y + r)) && Blanks(x) && Blanks(y) && Bracketed(r)
  {
    var head := UpTo(low, '(');
    r := UpToParts(low, '(');
    x := TrimLeftParts(head);
    y := TrimRightParts(TrimLeft(head));
    w := TrimRight(TrimLeft(head));
    assert head == x + (w + y);
  }

  lemma Regrouped(a: string, name: string, c: string, more: string, word: string, gap: string, tail: string)
    requires name == more + (word + (gap + tail))
    ensures a + name + c == (a + more) + (word + (gap + (tail + c)))
    ensures tail == "" ==> a + name + c == (a + more) + (word + ((gap + c) + ""))
  {
  }

  lemma JsonSplits(pgType: string) returns (before: string, word: string, after: string, rest: string)
    requires IsJsonType(pgType)
    ensures Splits(pgType, before, word, after, rest)
  {
    var a := TrimLeftParts(pgType);
    var c := TrimRightParts(TrimLeft(pgType));
    var name := TrimRight(TrimLeft(pgType));
    assert pgType == a + name + c;
    var x, w, y, r := LowParts(Lower(name));
    var more, gap, tail;
    more, word, gap, tail := PartsOf(name, x, w, y, r);
    Regrouped(a, name, c, more, word, gap, tail);
    before := a + more;
    if tail == "" {
      after, rest := gap + c, "";
    } else {
      after, rest := gap, tail + c;
    }
  }

  /** A column is json exactly when its type reads: blanks, json or jsonb in any
      capitalisation, blanks, and then nothing or a parenthesis and anything. */
  lemma JsonTypeNames(pgType: string)
    ensures IsJsonType(pgType) <==> exists before, word, after, rest :: Splits(pgType, before, word, after, rest)
  {
    if IsJsonType(pgType) {
      var before, word, after, rest := JsonSplits(pgType);
      assert Splits(pgType, before, word, after, rest);
    }
    if before, word, after, rest :| Splits(pgType, before, word, after, rest) {
      SplitsIsJson(pgType, before, word, after, rest);
    }
  }
}
