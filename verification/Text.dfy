/** The text every message is made of: decimal numbers, blank-separated tokens and
    strings with their length in front, as the printf and scanf formats of the
    library write and read them.  A C string is the sequence of its characters;
    reading one gives the value and the text that follows. */
module Text {

  datatype Parsed<T> = Bad | Good(value: T, rest: string)

  /** A char pointer: null, or the string it points to. */
  datatype Str = Null | Chars(s: string)

  /** isspace in the C locale. */
  predicate IsSpace(c: char) {
    c == ' ' || '\t' <= c <= '\r'
  }

  predicate IsDigit(c: char) {
    '0' <= c <= '9'
  }

  function SkipSpace(s: string): (r: string)
    ensures |r| <= |s| && r == s[|s| - |r|..]
    ensures r != [] ==> !IsSpace(r[0])
  {
    if s != [] && IsSpace(s[0]) then SkipSpace(s[1..]) else s
  }

  /** How many characters at the front are digits. */
  function DigitRun(s: string): (n: nat)
    ensures n <= |s| && forall k :: 0 <= k < n ==> IsDigit(s[k])
    ensures n < |s| ==> !IsDigit(s[n])
  {
    if s != [] && IsDigit(s[0]) then 1 + DigitRun(s[1..]) else 0
  }

  /** How many characters at the front are not blanks. */
  function WordRun(s: string): (n: nat)
    ensures n <= |s| && forall k :: 0 <= k < n ==> !IsSpace(s[k])
    ensures n < |s| ==> IsSpace(s[n])
  {
    if s != [] && !IsSpace(s[0]) then 1 + WordRun(s[1..]) else 0
  }

  function Digit(n: nat): (c: char)
    requires n < 10
    ensures IsDigit(c)
  {
    '0' + n as char
  }

  predicate AllDigits(s: string) {
    forall k :: 0 <= k < |s| ==> IsDigit(s[k])
  }

  /** The number a run of digits stands for. */
  function NatValue(s: string): nat
    requires AllDigits(s)
  {
    if s == [] then 0 else NatValue(s[..|s| - 1]) * 10 + (s[|s| - 1] - '0') as nat
  }

  // ---- Printing ----------------------------------------------------------

  function PrintNat(n: nat): (s: string)
    ensures |s| >= 1 && AllDigits(s)
  {
    if n < 10 then [Digit(n)] else PrintNat(n / 10) + [Digit(n % 10)]
  }

  /** %d and %ld. */
  function PrintInt(n: int): (s: string)
    ensures |s| >= 1 && (s[0] == '-' || IsDigit(s[0]))
  {
    if n < 0 then ['-'] + PrintNat(0 - n) else PrintNat(n)
  }

  /** printstr_serial: the length, a quote, the characters, a quote and a blank; a
      null pointer has length zero and a single 0 between the quotes. */
  function PrintStr(str: Str): string {
    match str
    case Null => "0\"0\" "
    case Chars(s) => PrintNat(|s|) + ['"'] + s + "\" "
  }

  // ---- Reading -----------------------------------------------------------

  /** An optional sign and digits. */
  function IntAt(t: string): Parsed<int> {
    if t != [] && t[0] == '-' then Signed(t[1..], true)
    else if t != [] && t[0] == '+' then Signed(t[1..], false)
    else Signed(t, false)
  }

  function Signed(u: string, negative: bool): Parsed<int> {
    var n := DigitRun(u);
    if n == 0 then Bad
    else Good(if negative then 0 - NatValue(u[..n]) else NatValue(u[..n]), u[n..])
  }

  /** %d and %ld: blanks in front are skipped. */
  function ScanInt(s: string): Parsed<int> {
    IntAt(SkipSpace(s))
  }

  /** %3s: blanks, then up to `width` other characters. */
  function ScanWord(s: string, width: nat): Parsed<string> {
    WordAt(SkipSpace(s), width)
  }

  function WordAt(t: string, width: nat): Parsed<string> {
    var n := if WordRun(t) < width then WordRun(t) else width;
    if n == 0 then Bad else Good(t[..n], t[n..])
  }

  /** A floating-point number, as a whole token. */
  function ScanToken(s: string): Parsed<string> {
    var t := SkipSpace(s);
    WordAt(t, |t|)
  }

  /** The characters of a format that must match as they are. */
  function ScanLiteral(s: string, lit: string): Parsed<()> {
    if |lit| <= |s| && s[..|lit|] == lit then Good((), s[|lit|..]) else Bad
  }

  const UNSIGNED_RANGE: nat := 0x1_0000_0000

  /** scanstr_serial. */
  function ScanStr(s: string): Parsed<Str> {
    match ScanInt(s)
    case Bad => Bad
    case Good(n, t) => if t != [] && t[0] == '"' then CharsAt(t[1..], Unsigned(n)) else Bad
  }

  /** %u accepts a sign and wraps. */
  function Unsigned(n: int): nat {
    if n < 0 then n % UNSIGNED_RANGE else n
  }

  /** What follows the opening quote. */
  function CharsAt(u: string, len: nat): Parsed<Str> {
    if len == 0 && 2 <= |u| && u[0] == '0' then Good(Null, u[2..])
    else if len < |u| && u[len] == '"' then Good(Chars(u[..len]), u[len + 1..])
    else Bad
  }

  // ---- Reading back what was printed --------------------------------------

  lemma Assoc(a: string, b: string, c: string)
    ensures a + b + c == a + (b + c)
  {}

  lemma {:induction false} NatRoundTrip(n: nat)
    ensures NatValue(PrintNat(n)) == n
  {
    if n >= 10 {
      NatRoundTrip(n / 10);
      assert PrintNat(n)[..|PrintNat(n)| - 1] == PrintNat(n / 10);
    }
  }

  lemma {:induction false} DigitRunOf(digits: string, rest: string)
    requires AllDigits(digits) && (rest == [] || !IsDigit(rest[0]))
    ensures DigitRun(digits + rest) == |digits|
  {
    if digits != [] {
      DigitRunOf(digits[1..], rest);
      assert (digits + rest)[1..] == digits[1..] + rest;
    }
  }

  lemma {:induction false} WordRunOf(word: string, rest: string)
    requires (forall k :: 0 <= k < |word| ==> !IsSpace(word[k])) && (rest == [] || IsSpace(rest[0]))
    ensures WordRun(word + rest) == |word|
  {
    if word != [] {
      WordRunOf(word[1..], rest);
      assert (word + rest)[1..] == word[1..] + rest;
    }
  }

  lemma SkipsNothing(s: string)
    requires s == [] || !IsSpace(s[0])
    ensures SkipSpace(s) == s
  {}

  lemma SkipsBlank(s: string)
    ensures SkipSpace([' '] + s) == SkipSpace(s)
  {
    assert ([' '] + s)[1..] == s;
  }

  lemma SignedDigits(n: nat, negative: bool, rest: string)
    requires rest == [] || !IsDigit(rest[0])
    ensures Signed(PrintNat(n) + rest, negative) == Good(if negative then 0 - n else n, rest)
  {
    var digits := PrintNat(n);
    NatRoundTrip(n);
    DigitRunOf(digits, rest);
    hide PrintNat, NatValue, DigitRun;
    assert (digits + rest)[..|digits|] == digits && (digits + rest)[|digits|..] == rest;
  }

  /** A number followed by anything but a digit reads back, and reading stops
      right behind it. */
  lemma IntRoundTrip(n: int, rest: string)
    requires rest == [] || !IsDigit(rest[0])
    ensures ScanInt(PrintInt(n) + rest) == Good(n, rest)
  {
    IntAtStart(n, rest);
    var t := PrintInt(n) + rest;
    assert t[0] == PrintInt(n)[0];
    hide PrintInt, IntAt;
    SkipsNothing(t);
  }

  lemma IntAtStart(n: int, rest: string)
    requires rest == [] || !IsDigit(rest[0])
    ensures IntAt(PrintInt(n) + rest) == Good(n, rest)
  {
    var m := if n < 0 then 0 - n else n;
    SignedDigits(m, n < 0, rest);
    hide PrintNat, Signed;
    var t := PrintInt(n) + rest;
    if n < 0 {
      Assoc(['-'], PrintNat(m), rest);
      assert t[1..] == PrintNat(m) + rest;
    } else {
      assert t[0] == PrintNat(m)[0];
    }
  }

  /** A string of any content, null or empty included, reads back; only the blank
      printed behind it is left. */
  lemma StrRoundTrip(str: Str, rest: string)
    ensures ScanStr(PrintStr(str) + rest) == Good(str, [' '] + rest)
  {
    hide ScanInt, PrintNat;
    match str
    case Null =>
      NullRoundTrip(rest);
    case Chars(s) =>
      var tail := ['"'] + s + "\" " + rest;
      assert PrintStr(str) + rest == PrintInt(|s|) + tail;
      IntRoundTrip(|s|, tail);
      var u := tail[1..];
      assert u == s + "\" " + rest;
      assert u[|s|] == '"' && u[..|s|] == s && u[|s| + 1..] == [' '] + rest;
      assert s == [] ==> u[0] == '"';
  }

  lemma NullRoundTrip(rest: string)
    ensures ScanStr(PrintStr(Null) + rest) == Good(Null, [' '] + rest)
  {
    var u := ['0', '"'] + ([' '] + rest);
    NullText(rest);
    IntRoundTrip(0, ['"'] + u);
    hide ScanInt, PrintInt, PrintStr;
    assert (['"'] + u)[1..] == u && u[2..] == [' '] + rest;
  }

  lemma NullText(rest: string)
    ensures PrintStr(Null) + rest == PrintInt(0) + (['"'] + (['0', '"'] + ([' '] + rest)))
  {
    assert PrintInt(0) == ['0'];
    assert PrintStr(Null) == ['0', '"', '0', '"', ' '];
    hide PrintInt, PrintStr;
  }

  lemma WordRoundTrip(word: string, rest: string)
    requires |word| == 3 && (forall k :: 0 <= k < 3 ==> !IsSpace(word[k]))
    ensures ScanWord(word + rest, 3) == Good(word, rest)
  {
    var t := word + rest;
    SkipsNothing(t);
    assert t[..3] == word && t[3..] == rest;
  }

  predicate IsToken(t: string) {
    t != [] && forall k :: 0 <= k < |t| ==> !IsSpace(t[k])
  }

  lemma TokenRoundTrip(token: string, rest: string)
    requires IsToken(token) && (rest == [] || IsSpace(rest[0]))
    ensures ScanToken(token + rest) == Good(token, rest)
  {
    var t := token + rest;
    SkipsNothing(t);
    WordRunOf(token, rest);
    assert t[..|token|] == token && t[|token|..] == rest;
  }

  /** Every reader skips a blank in front. */
  lemma BlankFirst(s: string)
    ensures ScanInt([' '] + s) == ScanInt(s)
    ensures ScanStr([' '] + s) == ScanStr(s)
    ensures ScanToken([' '] + s) == ScanToken(s)
    ensures forall w :: ScanWord([' '] + s, w) == ScanWord(s, w)
  {
    SkipsBlank(s);
    hide IntAt, WordAt, SkipSpace;
    assert ScanInt([' '] + s) == ScanInt(s);
    hide ScanInt;
  }

  /** Any run of blanks, tabs, line ends and form feeds in front of a number is skipped, and the number may
      carry a sign of either kind. */
  lemma {:induction false} NumberForms(gap: string, sign: string, n: nat, rest: string)
    requires forall k :: 0 <= k < |gap| ==> gap[k] as int == 32 || 9 <= gap[k] as int <= 13
    requires sign == "" || sign == "+" || sign == "-"
    requires rest == [] || !('0' <= rest[0] <= '9')
    ensures ScanInt(gap + (sign + (PrintNat(n) + rest))) == Good(if sign == "-" then 0 - n else n, rest)
  {
    var t := sign + (PrintNat(n) + rest);
    SignedForm(sign, n, rest);
    hide IntAt, PrintNat, SkipSpace;
    GapSkipped(gap, t);
  }

  lemma {:induction false} GapSkipped(gap: string, t: string)
    requires forall k :: 0 <= k < |gap| ==> IsSpace(gap[k])
    requires t != [] && !IsSpace(t[0])
    ensures SkipSpace(gap + t) == t
  {
    if gap == [] {
      assert gap + t == t;
      SkipsNothing(t);
    } else {
      GapSkipped(gap[1..], t);
      assert (gap + t)[1..] == gap[1..] + t;
    }
  }

  lemma {:induction false} SignedForm(sign: string, n: nat, rest: string)
    requires sign == "" || sign == "+" || sign == "-"
    requires rest == [] || !IsDigit(rest[0])
    ensures var t := sign + (PrintNat(n) + rest);
            !IsSpace(t[0]) && IntAt(t) == Good(if sign == "-" then 0 - n else n, rest)
  {
    SignedDigits(n, sign == "-", rest);
    hide PrintNat, Signed;
    var digits := PrintNat(n) + rest;
    assert IsDigit(digits[0]);
    if sign == "" {
      assert sign + digits == digits;
    } else {
      assert (sign + digits)[0] == sign[0] && (sign + digits)[1..] == digits;
    }
  }

  // ---- Lists -------------------------------------------------------------

  function PrintMany<T>(print_: T -> string, list: seq<T>): string {
    if list == [] then [] else print_(list[0]) + PrintMany(print_, list[1..])
  }

  /** `n` values, one behind the other. */
  function ScanMany<T>(scan: string -> Parsed<T>, n: nat, s: string): Parsed<seq<T>> {
    if n == 0 then Good([], s)
    else
      match scan(s)
      case Bad => Bad
      case Good(v, t) =>
        match ScanMany(scan, n - 1, t)
        case Bad => Bad
        case Good(list, u) => Good([v] + list, u)
  }

  /** What a printer and a reader promise each other about one value: behind a
      blank the value reads back if it is acceptable, and is refused if not; only
      the blank behind it is left. */
  ghost predicate ReadsBack<T>(print_: T -> string, scan: string -> Parsed<T>, ok: T -> bool, v: T) {
    forall rest: string ::
      scan([' '] + print_(v) + rest) == if ok(v) then Good(v, [' '] + rest) else Bad
  }

  /** Then lists of such values read back exactly when all of them are acceptable. */
  lemma {:induction false} ManyRoundTrip<T(!new)>(print_: T -> string, scan: string -> Parsed<T>, ok: T -> bool,
                                                  list: seq<T>, rest: string)
    requires forall v :: v in list ==> ReadsBack(print_, scan, ok, v)
    ensures ScanMany(scan, |list|, [' '] + PrintMany(print_, list) + rest) ==
            if forall v :: v in list ==> ok(v) then Good(list, [' '] + rest) else Bad
  {
    if list != [] {
      var v, more := list[0], list[1..];
      var tail := PrintMany(print_, more) + rest;
      assert ReadsBack(print_, scan, ok, v);
      assert scan([' '] + print_(v) + tail) == if ok(v) then Good(v, [' '] + tail) else Bad;
      ManyRoundTrip(print_, scan, ok, more, rest);
      assert list == [v] + more;
      hide ReadsBack;
      Assoc([' '], PrintMany(print_, more), rest);
      Assoc([' '], print_(v) + PrintMany(print_, more), rest);
      Assoc(print_(v), PrintMany(print_, more), rest);
      Assoc([' '], print_(v), tail);
    } else {
      Assoc([' '], [], rest);
    }
  }

  lemma {:induction false} PrintManySnoc<T>(print_: T -> string, list: seq<T>, v: T)
    ensures PrintMany(print_, list + [v]) == PrintMany(print_, list) + print_(v)
  {
    if list == [] {
      assert PrintMany(print_, [v]) == print_(v) + PrintMany(print_, []);
    } else {
      PrintManySnoc(print_, list[1..], v);
      assert (list + [v])[1..] == list[1..] + [v];
    }
  }
}
