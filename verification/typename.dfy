/**
 Column types travel as DuckDB type names.  Reading a name is case-insensitive,
 peels `[]` suffixes, and squeezes the two numbers of a DECIMAL into 8 bits.
 */
module TypeName {
  import opened Wrappers

  datatype LogicalType =
    | BigInt | Integer | SmallInt | Boolean | Double | Float | Date | Time | TimeTz
    | Timestamp | TimestampTz | Uuid | Blob | Varchar
    | Decimal(width: nat, scale: nat)
    | List(child: LogicalType)

  // ---------- reading ----------

  function UpperChar(c: char): char {
    if 'a' <= c <= 'z' then c - 'a' + 'A' else c
  }

  function Upper(s: string): string {
    seq(|s|, i requires 0 <= i < |s| => UpperChar(s[i]))
  }

  predicate EndsWith(s: string, suffix: string) {
    |s| >= |suffix| && s[|s| - |suffix|..] == suffix
  }

  function Find(s: string, c: char): (r: Option<nat>)
    ensures r.Some? ==> r.value < |s| && s[r.value] == c && c !in s[..r.value]
    ensures r.None? ==> c !in s
  {
    if s == "" then None
    else if s[0] == c then Some(0)
    else
      match Find(s[1..], c)
      case None => None
      case Some(i) =>
        assert s[..i + 1] == [s[0]] + s[1..][..i];
        Some(i + 1)
  }

  predicate IsDigit(c: char) {
    '0' <= c <= '9'
  }

  predicate IsBlank(c: char) {
    c == ' ' || '\t' <= c <= '\r'
  }

  function DigitPrefix(s: string): string {
    if s != "" && IsDigit(s[0]) then [s[0]] + DigitPrefix(s[1..]) else ""
  }

  function DigitsValue(s: string): nat
    requires forall c <- s :: IsDigit(c)
  {
    if s == "" then 0
    else
      var last := s[|s| - 1];
      assert IsDigit(last) by { assert last in s; }
      10 * DigitsValue(s[..|s| - 1]) + (last - '0') as nat
  }

  lemma {:induction false} DigitPrefixDigits(s: string)
    ensures forall c <- DigitPrefix(s) :: IsDigit(c)
  {
    if s != "" && IsDigit(s[0]) {
      DigitPrefixDigits(s[1..]);
    }
  }

  const INT_MAX: nat := 0x7FFF_FFFF

  // Blanks, a sign, digits; whatever follows is ignored.  None is an exception.
  function Stoi(s: string): Option<int> {
    if s != "" && IsBlank(s[0]) then Stoi(s[1..])
    else
      var negative := s != "" && s[0] == '-';
      var digits := DigitPrefix(if negative || (s != "" && s[0] == '+') then s[1..] else s);
      DigitPrefixDigits(if negative || (s != "" && s[0] == '+') then s[1..] else s);
      if digits == "" then None
      else
        var value: int := DigitsValue(digits);
        if negative then (if value > INT_MAX + 1 then None else Some(-value))
        else if value > INT_MAX then None
        else Some(value)
  }

  // The cast to an unsigned 8-bit number.
  function Narrow(n: int): nat {
    n % 256
  }

  function BaseOf(upper: string): LogicalType {
    if upper == "BIGINT" then BigInt
    else if upper == "INTEGER" then Integer
    else if upper == "SMALLINT" then SmallInt
    else if upper == "BOOLEAN" then Boolean
    else if upper == "DOUBLE" then Double
    else if upper == "REAL" then Float
    else if upper == "DATE" then Date
    else if upper == "TIME" then Time
    else if upper == "TIME WITH TIME ZONE" then TimeTz
    else if upper == "TIMESTAMP" then Timestamp
    else if upper == "TIMESTAMP WITH TIME ZONE" then TimestampTz
    else if upper == "UUID" then Uuid
    else if upper == "BLOB" then Blob
    else Varchar
  }

  // Without a closing parenthesis the argument list runs to the end of the name.
  function Arguments(t: string): string {
    var open := match Find(t, '(') case Some(i) => i + 1 case None => 0;
    match Find(t, ')') case Some(i) => if open <= i then t[open..i] else t[open..] case None => t[open..]
  }

  // Without a comma both numbers are read from the whole argument list.
  function Numbers(args: string): (string, string) {
    match Find(args, ',') case Some(i) => (args[..i], args[i + 1..]) case None => (args, args)
  }

  function ReadDecimal(t: string): Option<LogicalType> {
    var (w, s) := Numbers(Arguments(t));
    match (Stoi(w), Stoi(s))
    case (Some(width), Some(scale)) => Some(Decimal(Narrow(width), Narrow(scale)))
    case _ => None
  }

  // None when a number cannot be read.  Each suffix peeled shortens the name.
  function FromString(t: string): Option<LogicalType>
    decreases |t|
  {
    if EndsWith(t, "[]") then
      match FromString(t[..|t| - 2])
      case None => None
      case Some(child) => Some(List(child))
    else if "DECIMAL(" <= Upper(t) then ReadDecimal(t)
    else Some(BaseOf(Upper(t)))
  }

  // ---------- printing ----------

  function Digit(d: nat): char
    requires d < 10
  {
    '0' + d as char
  }

  function PrintNat(n: nat): string {
    (if n < 10 then "" else PrintNat(n / 10)) + [Digit(n % 10)]
  }

  function Name(t: LogicalType): string
    requires !t.Decimal? && !t.List?
  {
    match t
    case BigInt => "BIGINT"
    case Integer => "INTEGER"
    case SmallInt => "SMALLINT"
    case Boolean => "BOOLEAN"
    case Double => "DOUBLE"
    case Float => "REAL"
    case Date => "DATE"
    case Time => "TIME"
    case TimeTz => "TIME WITH TIME ZONE"
    case Timestamp => "TIMESTAMP"
    case TimestampTz => "TIMESTAMP WITH TIME ZONE"
    case Uuid => "UUID"
    case Blob => "BLOB"
    case Varchar => "VARCHAR"
  }

  function Print(t: LogicalType): string {
    match t
    case Decimal(w, s) => "DECIMAL(" + PrintNat(w) + "," + PrintNat(s) + ")"
    case List(child) => Print(child) + "[]"
    case _ => Name(t)
  }

  // What is left of a type once its numbers are squeezed into 8 bits.
  function Squeezed(t: LogicalType): LogicalType {
    match t
    case Decimal(w, s) => Decimal(w % 256, s % 256)
    case List(child) => List(Squeezed(child))
    case _ => t
  }

  predicate Printable(t: LogicalType) {
    match t
    case Decimal(w, s) => w <= 0x7FFF_FFFF && s <= 0x7FFF_FFFF
    case List(child) => Printable(child)
    case _ => true
  }

  // Both numbers of every DECIMAL fit 8 bits.
  predicate Fits8Bits(t: LogicalType) {
    match t
    case Decimal(w, s) => w < 256 && s < 256
    case List(child) => Fits8Bits(child)
    case _ => true
  }

  // ---------- numbers ----------

  lemma DigitReads(d: nat)
    requires d < 10
    ensures IsDigit(Digit(d)) && (Digit(d) - '0') as nat == d
  {
  }

  lemma DigitsAppend(s: string, d: nat)
    requires d < 10 && forall c <- s :: IsDigit(c)
    ensures forall c <- s + [Digit(d)] :: IsDigit(c)
    ensures DigitsValue(s + [Digit(d)]) == 10 * DigitsValue(s) + d
  {
    DigitReads(d);
    assert (s + [Digit(d)])[..|s|] == s;
  }

  lemma {:induction false} PrintNatReads(n: nat)
    ensures PrintNat(n) != "" && (forall c <- PrintNat(n) :: IsDigit(c)) && DigitsValue(PrintNat(n)) == n
    decreases n
  {
    if n >= 10 {
      PrintNatReads(n / 10);
      DigitsAppend(PrintNat(n / 10), n % 10);
    } else {
      DigitsAppend("", n % 10);
    }
  }

  lemma {:induction false} DigitPrefixOf(digits: string, junk: string)
    requires (forall c <- digits :: IsDigit(c)) && (junk == "" || !IsDigit(junk[0]))
    ensures DigitPrefix(digits + junk) == digits
    decreases |digits|
  {
    if digits == "" {
      assert digits + junk == junk;
    } else {
      assert digits[0] in digits && (digits + junk)[1..] == digits[1..] + junk;
      DigitPrefixOf(digits[1..], junk);
      assert [digits[0]] + digits[1..] == digits;
    }
  }

  // What fits a 32-bit integer.
  function Fitting(value: int): Option<int> {
    if -0x8000_0000 <= value <= 0x7FFF_FFFF then Some(value) else None
  }

  // What the number's text looks like to the reader, past blanks and sign.
  lemma DigitsLead(n: nat, junk: string)
    requires junk == "" || !IsDigit(junk[0])
    ensures var text := PrintNat(n) + junk;
            && text != "" && IsDigit(text[0])
            && DigitPrefix(text) == PrintNat(n) && PrintNat(n) != ""
            && (forall c <- PrintNat(n) :: IsDigit(c)) && DigitsValue(PrintNat(n)) == n
  {
    PrintNatReads(n);
    DigitPrefixOf(PrintNat(n), junk);
    assert PrintNat(n)[0] in PrintNat(n);
  }

  lemma UnsignedStoi(text: string)
    requires text != "" && IsDigit(text[0])
    ensures (forall c <- DigitPrefix(text) :: IsDigit(c)) && Stoi(text) == Fitting(DigitsValue(DigitPrefix(text)))
  {
    DigitPrefixDigits(text);
  }

  lemma SignedStoi(minus: bool, text: string, signed: string)
    requires text != "" && IsDigit(text[0]) && signed == [if minus then '-' else '+'] + text
    ensures (forall c <- DigitPrefix(text) :: IsDigit(c))
    ensures var value := DigitsValue(DigitPrefix(text)) as int;
            Stoi(signed) == Fitting(if minus then -value else value)
  {
    DigitPrefixDigits(text);
    assert signed[1..] == text;
  }

  lemma SignedReads(minus: bool, sign: string, n: nat, junk: string)
    requires sign == (if minus then "-" else "") || (sign == "+" && !minus)
    requires junk == "" || !IsDigit(junk[0])
    ensures Stoi(sign + (PrintNat(n) + junk)) == Fitting(if minus then -(n as int) else n as int)
  {
    var text := PrintNat(n) + junk;
    DigitsLead(n, junk);
    if sign == "" {
      assert sign + text == text;
      UnsignedStoi(text);
    } else {
      assert sign == [if minus then '-' else '+'];
      SignedStoi(minus, text, sign + text);
    }
  }

  /** Reading a number skips blanks, takes a sign and all digits, ignores whatever
      follows, and fails outside 32 bits. */
  lemma {:induction false} StoiReads(blanks: string, minus: bool, sign: string, n: nat, junk: string)
    requires forall c <- blanks :: IsBlank(c)
    requires sign == (if minus then "-" else "") || (sign == "+" && !minus)
    requires junk == "" || !IsDigit(junk[0])
    ensures Stoi(blanks + (sign + (PrintNat(n) + junk))) == Fitting(if minus then -(n as int) else n as int)
    decreases |blanks|
  {
    var rest := sign + (PrintNat(n) + junk);
    if blanks == "" {
      assert blanks + rest == rest;
      SignedReads(minus, sign, n, junk);
    } else {
      assert blanks[0] in blanks && (blanks + rest)[1..] == blanks[1..] + rest;
      StoiReads(blanks[1..], minus, sign, n, junk);
    }
  }

  lemma StoiPrinted(n: nat)
    ensures Stoi(PrintNat(n)) == if n <= 0x7FFF_FFFF then Some(n) else None
  {
    StoiReads("", false, "", n, "");
    assert "" + ("" + (PrintNat(n) + "")) == PrintNat(n);
  }

  // ---------- round trip ----------

  lemma UpperAt(s: string, i: nat)
    requires i < |s|
    ensures Upper(s)[i] == UpperChar(s[i])
    ensures !('A' <= Upper(s)[i] <= 'Z') ==> s[i] == Upper(s)[i]
  {
  }

  lemma BaseReads(t: LogicalType)
    requires !t.Decimal? && !t.List?
    ensures BaseOf(Name(t)) == t
  {
  }

  /** A name that is neither a list nor a DECIMAL is a type's if and only if it is
      that type's own, in any capitalisation; every other one is VARCHAR. */
  lemma PlainNames(name: string, t: LogicalType)
    requires !EndsWith(name, "[]") && !("DECIMAL(" <= Upper(name))
    requires !t.Decimal? && !t.List?
    ensures !t.Varchar? ==> (FromString(name) == Some(t) <==> Upper(name) == Name(t))
    ensures FromString(name) == Some(Varchar) <==>
            forall u: LogicalType :: !u.Decimal? && !u.List? && !u.Varchar? ==> Upper(name) != Name(u)
  {
    var u := BaseOf(Upper(name));
    if !u.Varchar? {
      assert Upper(name) == Name(u);
    }
    forall v: LogicalType | !v.Decimal? && !v.List? && !v.Varchar? && Upper(name) == Name(v) ensures u == v {
      BaseReads(v);
    }
  }

  lemma BaseShape(t: LogicalType)
    requires !t.Decimal? && !t.List?
    ensures Name(t) != "" && Name(t)[|Name(t)| - 1] != ']' && !("DECIMAL(" <= Name(t))
  {
    var head := "DECIMAL(";
    assert |head| <= |Name(t)| ==> Name(t)[0] != head[0];
  }

  lemma {:induction false} FindAt(s: string, c: char, i: nat)
    requires i < |s| && s[i] == c && c !in s[..i]
    ensures Find(s, c) == Some(i)
  {
    if i > 0 {
      assert s[0] in s[..i] && s[1..][..i - 1] == s[..i][1..];
      FindAt(s[1..], c, i - 1);
    }
  }

  // A name with DECIMAL in any capitalisation is its head and the plain rest.
  lemma DecimalTail(name: string, head: string, tail: string)
    requires Upper(name) == head + tail
    requires forall c <- tail :: !('A' <= c <= 'Z')
    ensures |name| == |head| + |tail| && name == name[..|head|] + tail
    ensures forall c <- name[..|head|] :: UpperChar(c) in head
  {
    forall i | 0 <= i < |tail| ensures name[|head| + i] == tail[i] {
      UpperAt(name, |head| + i);
      assert (head + tail)[|head| + i] == tail[i] && tail[i] in tail;
    }
    forall c | c in name[..|head|] ensures UpperChar(c) in head {
      var i :| 0 <= i < |head| && name[i] == c;
      UpperAt(name, i);
      assert (head + tail)[i] == head[i];
    }
  }

  // Where the parentheses and the comma fall.
  lemma DecimalParts(name: string, head: string, w: string, s: string)
    requires name == head + ("(" + (w + "," + s) + ")")
    requires '(' !in head && ')' !in head && forall c <- w + s :: IsDigit(c)
    ensures Numbers(Arguments(name)) == (w, s)
  {
    var args := w + "," + s;
    var close := |head| + 1 + |args|;
    assert name[..|head|] == head && name[|head|] == '(';
    FindAt(name, '(', |head|);
    assert name[..close] == head + "(" + args && name[close] == ')';
    assert ')' !in args by {
      assert forall c :: c in args ==> c in w + s || c == ',';
    }
    FindAt(name, ')', close);
    assert name[|head| + 1..close] == args;
    assert args[..|w|] == w && args[|w|] == ',' && args[|w| + 1..] == s;
    assert forall c :: c in w ==> c in w + s;
    FindAt(args, ',', |w|);
  }

  lemma DecimalReads(name: string, head: string, wt: string, st: string)
    requires name == head + ("(" + (wt + "," + st) + ")")
    requires '(' !in head && ')' !in head && forall c <- wt + st :: IsDigit(c)
    ensures ReadDecimal(name) ==
            match (Stoi(wt), Stoi(st))
            case (Some(w), Some(s)) => Some(Decimal(Narrow(w), Narrow(s)))
            case _ => None
  {
    DecimalParts(name, head, wt, st);
  }

  lemma OneArgument(name: string, head: string, digits: string)
    requires name == head + ("(" + digits + ")")
    requires '(' !in head && ')' !in head && forall c <- digits :: IsDigit(c)
    ensures Numbers(Arguments(name)) == (digits, digits)
  {
    var close := |head| + 1 + |digits|;
    assert name[..|head|] == head && name[|head|] == '(';
    FindAt(name, '(', |head|);
    assert name[..close] == head + "(" + digits && name[close] == ')';
    assert ')' !in digits && ',' !in digits;
    assert ')' !in head + "(" + digits;
    FindAt(name, ')', close);
    assert name[|head| + 1..close] == digits;
  }

  lemma DecimalWord(name: string, head: string, tail: string)
    requires head == "DECIMAL" && tail != "" && tail[0] == '(' && name == head + tail
    ensures "DECIMAL(" <= Upper(name)
  {
    var word := "DECIMAL(";
    assert |word| == 8 && |head| == 7 && name[7] == '(';
    forall i | 0 <= i < 8 ensures Upper(name)[i] == word[i] {
      assert i < 7 ==> name[i] == head[i] == word[i];
      UpperAt(name, i);
    }
  }

  /** A DECIMAL with one number reads it both as width and as scale. */
  lemma OneNumberTwice(name: string, head: string, n: nat)
    requires head == "DECIMAL" && name == head + ("(" + PrintNat(n) + ")")
    ensures FromString(name) == if n <= 0x7FFF_FFFF then Some(Decimal(n % 256, n % 256)) else None
  {
    PrintNatReads(n);
    StoiPrinted(n);
    OneArgument(name, head, PrintNat(n));
    NotAList(name, ')');
    DecimalWord(name, head, "(" + PrintNat(n) + ")");
  }

  // A DECIMAL name in any capitalisation: seven letters, then the plain rest.
  lemma DecimalHead(name: string, head: string, wt: string, st: string)
    requires head == "DECIMAL" && forall c <- wt + st :: IsDigit(c)
    requires Upper(name) == head + ("(" + (wt + "," + st) + ")")
    ensures |name| > 7 && name == name[..7] + ("(" + (wt + "," + st) + ")")
    ensures '(' !in name[..7] && ')' !in name[..7]
    ensures name[|name| - 1] == ')'
  {
    var tail := "(" + (wt + "," + st) + ")";
    PlainTail(wt, st, tail);
    DecimalTail(name, head, tail);
    LettersOnly(head, name[..7]);
    assert tail[|tail| - 1] == ')';
  }

  lemma PlainTail(wt: string, st: string, tail: string)
    requires forall c <- wt + st :: IsDigit(c)
    requires tail == "(" + (wt + "," + st) + ")"
    ensures forall c <- tail :: !('A' <= c <= 'Z')
  {
    forall c | c in tail ensures !('A' <= c <= 'Z') {
      assert c in wt + st || c == '(' || c == ',' || c == ')';
    }
  }

  lemma LettersOnly(head: string, letters: string)
    requires head == "DECIMAL" && forall c <- letters :: UpperChar(c) in head
    ensures '(' !in letters && ')' !in letters
  {
    assert UpperChar('(') !in head && UpperChar(')') !in head;
  }

  lemma DecimalName(w: nat, s: nat)
    ensures Print(Decimal(w, s)) == "DECIMAL" + ("(" + (PrintNat(w) + "," + PrintNat(s)) + ")")
    ensures "DECIMAL(" <= Print(Decimal(w, s))
    ensures forall c <- PrintNat(w) + PrintNat(s) :: IsDigit(c)
  {
    PrintNatReads(w);
    PrintNatReads(s);
    NameParts("DECIMAL", PrintNat(w), PrintNat(s));
  }

  lemma NameParts(head: string, w: string, s: string)
    requires head == "DECIMAL"
    ensures "DECIMAL(" + w + "," + s + ")" == head + ("(" + (w + "," + s) + ")")
    ensures "DECIMAL(" <= "DECIMAL(" + w + "," + s + ")"
  {
    assert "DECIMAL(" == head + "(";
  }

  lemma UpperDrop(name: string, n: nat)
    requires n <= |name|
    ensures Upper(name[..n]) == Upper(name)[..n]
  {
  }

  lemma ListReads(name: string, child: string)
    requires Upper(name) == child + "[]"
    ensures EndsWith(name, "[]") && Upper(name[..|name| - 2]) == child
  {
    var n := |child|;
    assert |name| == n + 2;
    UpperAt(name, n);
    UpperAt(name, n + 1);
    assert name[n..] == "[]";
    UpperDrop(name, n);
    assert (child + "[]")[..n] == child;
  }

  /** Reading a printed type name in any capitalisation gives the type back with
      the numbers of its DECIMALs squeezed into 8 bits, and fails exactly when one
      of them does not fit a 32-bit integer. */
  lemma {:induction false} ReadsPrinted(name: string, t: LogicalType)
    requires Upper(name) == Print(t)
    ensures FromString(name) == if Printable(t) then Some(Squeezed(t)) else None
    decreases t
  {
    if t.List? {
      ListReads(name, Print(t.child));
      ReadsPrinted(name[..|name| - 2], t.child);
    } else if t.Decimal? {
      DecimalNameReads(name, t.width, t.scale);
    } else {
      BaseShape(t);
      BaseReads(t);
      UpperAt(name, |name| - 1);
      NotAList(name, name[|name| - 1]);
    }
  }

  lemma DecimalNameReads(name: string, w: nat, s: nat)
    requires Upper(name) == Print(Decimal(w, s))
    ensures FromString(name) ==
            if w <= 0x7FFF_FFFF && s <= 0x7FFF_FFFF then Some(Decimal(w % 256, s % 256)) else None
  {
    var wt, st := PrintNat(w), PrintNat(s);
    DecimalName(w, s);
    DecimalHead(name, "DECIMAL", wt, st);
    StoiPrinted(w);
    StoiPrinted(s);
    DecimalReads(name, name[..7], wt, st);
    NotAList(name, ')');
  }

  lemma NotAList(name: string, last: char)
    requires name != "" && name[|name| - 1] == last && last != ']'
    ensures !EndsWith(name, "[]")
  {
    var brackets := "[]";
    assert |name| >= 2 ==> name[|name| - 2..][1] == last != brackets[1];
  }

  lemma {:induction false} SqueezedIff(t: LogicalType)
    ensures Squeezed(t) == t <==> Fits8Bits(t)
    ensures Fits8Bits(t) ==> Printable(t)
    decreases t
  {
    if t.List? {
      SqueezedIff(t.child);
    }
  }

  /** The round trip, exactly: a type comes back from its name if and only if the
      widths and scales in it fit 8 bits, as every width up to 38 does. */
  lemma TypeNameRoundTrip(name: string, t: LogicalType)
    requires Upper(name) == Print(t)
    ensures FromString(name) == Some(t) <==> Fits8Bits(t)
  {
    ReadsPrinted(name, t);
    SqueezedIff(t);
  }
}
