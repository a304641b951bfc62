/** The ten bytes in front of every message: a magic word, the length of the whole
    message in four decimal digits and the protocol version in two hexadecimal ones. */
module Header {
  import opened Text
  import opened HashTable
  import opened Wire
  import opened RoundTrip

  const HDRLEN: nat := 10
  const VERSION: nat := 5

  function Magic(): (s: string)
    ensures |s| == 4
  {
    "Ray|"
  }

  function VersionText(): (s: string)
    ensures |s| == 2
  {
    "05"
  }

  /** Zeros in front, up to a width. */
  function Pad(s: string, width: nat): (r: string)
    requires AllDigits(s)
    ensures AllDigits(r) && |r| == if |s| < width then width else |s|
    decreases width - |s|
  {
    if |s| >= width then s else Pad(['0'] + s, width)
  }

  /** The header hmesg_serialize prints; what does not fit into ten bytes is cut off. */
  function PrintHeader(total: nat): (s: string)
    ensures |s| == HDRLEN
  {
    (Magic() + (Pad(PrintNat(total), 4) + VersionText()))[..HDRLEN]
  }

  /** %4d: at most four characters are looked at. */
  function ScanInt4(s: string): Parsed<int> {
    var t := SkipSpace(s);
    if |t| <= 4 then IntAt(t)
    else match IntAt(t[..4])
      case Bad => Bad
      case Good(n, u) => Good(n, u + t[4..])
  }

  function HexDigit(c: char): Option<nat> {
    if IsDigit(c) then Some((c - '0') as nat)
    else if 'a' <= c <= 'f' then Some((c - 'a') as nat + 10)
    else if 'A' <= c <= 'F' then Some((c - 'A') as nat + 10)
    else None
  }

  /** %2x: one or two hexadecimal digits. */
  function ScanHex2(s: string): Option<nat> {
    var t := SkipSpace(s);
    if t == [] || HexDigit(t[0]).None? then None
    else if |t| == 1 || HexDigit(t[1]).None? then HexDigit(t[0])
    else Some(HexDigit(t[0]).value * 16 + HexDigit(t[1]).value)
  }

  /** The length announced, if magic word and version are right. */
  function ReadHeader(s: string): Option<int> {
    if |s| < 4 || s[..4] != Magic() then None
    else match ScanInt4(s[4..])
      case Bad => None
      case Good(n, t) => if ScanHex2(t) == Some(VERSION) then Some(n) else None
  }

  // ---- Four digits -------------------------------------------------------

  lemma {:induction false} ZeroInFront(s: string)
    requires AllDigits(s)
    ensures NatValue(['0'] + s) == NatValue(s)
  {
    if s == [] {
      assert ['0'][..0] == [];
    } else {
      ZeroInFront(s[..|s| - 1]);
      assert (['0'] + s)[..|s|] == ['0'] + s[..|s| - 1];
    }
  }

  lemma {:induction false} PadValue(s: string, width: nat)
    requires AllDigits(s)
    ensures NatValue(Pad(s, width)) == NatValue(s)
    decreases width - |s|
  {
    if |s| < width {
      ZeroInFront(s);
      PadValue(['0'] + s, width);
    }
  }

  lemma {:induction false} ValueBound(s: string)
    requires AllDigits(s) && |s| <= 4
    ensures NatValue(s) < Power10(|s|)
  {
    if s != [] {
      ValueBound(s[..|s| - 1]);
    }
  }

  function Power10(n: nat): nat {
    if n == 0 then 1 else 10 * Power10(n - 1)
  }

  /** A number has at most k digits exactly when it is below ten to the k. */
  lemma {:induction false} DigitsIff(n: nat, k: nat)
    requires 1 <= k
    ensures |PrintNat(n)| <= k <==> n < Power10(k)
  {
    if k == 1 {
      assert Power10(1) == 10;
      if n >= 10 {
        assert |PrintNat(n)| == |PrintNat(n / 10)| + 1;
      }
    } else if n >= 10 {
      DigitsIff(n / 10, k - 1);
      Tenth(n, Power10(k - 1));
    } else {
      PowerPositive(k - 1);
    }
  }

  lemma Tenth(n: nat, p: nat)
    ensures n / 10 < p <==> n < 10 * p
  {}

  lemma {:induction false} PowerPositive(k: nat)
    ensures Power10(k) >= 1
  {
    if k > 0 {
      PowerPositive(k - 1);
    }
  }

  lemma FourDigits(n: nat)
    ensures |PrintNat(n)| <= 4 <==> n <= 9999
  {
    DigitsIff(n, 4);
    assert Power10(4) == 10000 by {
      assert Power10(1) == 10 && Power10(2) == 100 && Power10(3) == 1000;
    }
  }

  /** Whatever four characters hold, the number read from them has four digits. */
  lemma Int4Bound(s: string)
    ensures ScanInt4(s).Good? ==> ScanInt4(s).value <= 9999
  {
    var t := SkipSpace(s);
    SignedBound(if |t| <= 4 then t else t[..4]);
  }

  lemma SignedBound(t: string)
    requires |t| <= 4
    ensures IntAt(t).Good? ==> IntAt(t).value <= 9999
  {
    hide Signed;
    DigitsBound(t, false);
    if t != [] {
      DigitsBound(t[1..], false);
      DigitsBound(t[1..], true);
    }
  }

  lemma DigitsBound(u: string, negative: bool)
    requires |u| <= 4
    ensures Signed(u, negative).Good? ==> Signed(u, negative).value <= 9999
  {
    var n := DigitRun(u);
    ValueBound(u[..n]);
    assert Power10(0) == 1 && Power10(1) == 10 && Power10(2) == 100 && Power10(3) == 1000 && Power10(4) == 10000;
  }

  /** Four digits and what follows them. */
  lemma Int4Read(digits: string, rest: string)
    requires |digits| == 4 && AllDigits(digits)
    ensures ScanInt4(digits + rest) == Good(NatValue(digits), rest)
  {
    var t := digits + rest;
    assert t[0] == digits[0];
    SkipsNothing(t);
    hide SkipSpace;
    DigitRunOf(digits, []);
    assert digits + [] == digits && digits[..4] == digits && digits[4..] == [];
    assert t[..4] == digits && t[4..] == rest && [] + rest == rest;
    if rest == [] {
      assert t == digits;
    }
  }

  lemma VersionRead(rest: string)
    ensures ScanHex2(VersionText() + rest) == Some(VERSION)
  {
    var t := VersionText() + rest;
    assert t[0] == '0' && t[1] == '5';
    SkipsNothing(t);
    hide SkipSpace, VersionText;
  }

  /** The header tells the length of the message exactly when the message is at
      most 9999 bytes long. */
  lemma HeaderReadIff(total: nat, rest: string)
    ensures ReadHeader(PrintHeader(total) + rest) == Some(total) <==> total <= 9999
  {
    FourDigits(total);
    if total <= 9999 {
      ShortHeader(total, rest);
    } else if ReadHeader(PrintHeader(total) + rest).Some? {
      Int4Bound((PrintHeader(total) + rest)[4..]);
    }
  }

  lemma ShortHeader(total: nat, rest: string)
    requires |PrintNat(total)| <= 4
    ensures ReadHeader(PrintHeader(total) + rest) == Some(total)
  {
    var digits := Pad(PrintNat(total), 4);
    NatRoundTrip(total);
    PadValue(PrintNat(total), 4);
    hide PrintNat, Pad, NatValue, Magic, VersionText, ScanInt4, ScanHex2, Signed;
    var s := PrintHeader(total) + rest;
    assert PrintHeader(total) == Magic() + (digits + VersionText());
    assert s[..4] == Magic() && s[4..] == digits + (VersionText() + rest);
    Int4Read(digits, VersionText() + rest);
    VersionRead(rest);
  }

  /** Without the magic word nothing is read. */
  lemma MagicNeeded(s: string)
    requires ReadHeader(s).Some?
    ensures |s| >= 4 && s[0] == 'R' && s[1] == 'a' && s[2] == 'y' && s[3] == '|'
  {
    hide ScanInt4, ScanHex2;
    assert s[..4][0] == s[0] && s[..4][1] == s[1] && s[..4][2] == s[2] && s[..4][3] == s[3];
  }

  predicate IsHex(c: char) {
    '0' <= c <= '9' || 'a' <= c <= 'f' || 'A' <= c <= 'F'
  }

  lemma VersionIsFive(h: char, l: char, rest: string)
    requires !IsSpace(h)
    ensures ScanHex2([h, l] + rest) == Some(5) <==> (h == '0' && l == '5') || (h == '5' && !IsHex(l))
  {
    var t := [h, l] + rest;
    assert t[0] == h && t[1] == l;
    SkipsNothing(t);
    hide SkipSpace;
  }

  /** With the magic word and four digits, the version decides: the digits are read as the
      length exactly if it is 05, or 5 in front of something else. */
  lemma VersionDecides(digits: string, h: char, l: char, rest: string)
    requires |digits| == 4 && AllDigits(digits) && !IsSpace(h)
    ensures ReadHeader("Ray|" + digits + [h, l] + rest) ==
            if (h == '0' && l == '5') || (h == '5' && !IsHex(l)) then Some(NatValue(digits)) else None
  {
    var s, t := "Ray|" + digits + [h, l] + rest, [h, l] + rest;
    assert s[..4] == Magic() && s[4..] == digits + t;
    Int4Read(digits, t);
    VersionIsFive(h, l, rest);
    hide ScanInt4, ScanHex2, NatValue, IsHex;
  }

  // ---- Whole messages ----------------------------------------------------

  /** The bytes of a message. */
  function Serialized(m: Mesg): string {
    PrintHeader(HDRLEN + |PrintBody(m)|) + PrintBody(m)
  }

  /** hmesg_deserialize. */
  function Deserialize(s: string): Option<Mesg> {
    if |s| < HDRLEN || ReadHeader(s).None? then None
    else match ScanBody(s[HDRLEN..])
      case Bad => None
      case Good(m, _) => Some(m)
  }

  /** Every well-formed message of at most 9999 bytes arrives as it was sent,
      unless a name in it is null, in which case the reader refuses it. */
  lemma MesgRoundTrip(m: Mesg)
    requires MesgSendable(m) && |Serialized(m)| <= 9999
    ensures Deserialize(Serialized(m)) == if DataNamed(m.data) then Some(ArrivedMesg(m)) else None
    ensures SameMesg(m, ArrivedMesg(m))
  {
    hide PrintBody, ScanBody, ReadHeader, PrintHeader, MesgSendable, DataNamed, ArrivedMesg, SameMesg, Deserialize;
    BehindHeader(PrintBody(m));
    ArrivedIsSame(m);
    BodyRead(m);
  }

  // ---- What each message carries -------------------------------------------

  /** For every type and status: what a message carries, and that it arrives with it.
      Any type answers ERR with a string; a session is opened by SES/REQ; JOI always
      carries a signature, QRY and INF a string; BST and FET carry a point in an ACK and
      in a BSY reply; REP/REQ carries a candidate id and a performance; and nothing else
      carries anything. */
  lemma CarriedArrives(m: Mesg)
    requires DataSendable(m.data) && DataNamed(m.data) && |Serialized(m)| <= 9999
    requires
      || (m.status == Failed && m.data.StringData?)
      || (m.kind == SessionKind && m.status == Request && m.data.SessionData?)
      || (m.kind == SessionKind && (m.status == Okay || m.status == Busy) && m.data.NoData?)
      || (m.kind == JoinKind && (m.status == Request || m.status == Okay || m.status == Busy) && m.data.JoinData?)
      || ((m.kind == GetCfgKind || m.kind == SetCfgKind) &&
          (m.status == Request || m.status == Okay || m.status == Busy) && m.data.StringData?)
      || ((m.kind == BestKind || m.kind == FetchKind) && (m.status == Okay || m.status == Busy) && m.data.PointData?)
      || ((m.kind == BestKind || m.kind == FetchKind) && m.status == Request && m.data.NoData?)
      || (m.kind == ReportKind && m.status == Request && m.data.ReportData?)
      || (m.kind == ReportKind && (m.status == Okay || m.status == Busy) && m.data.NoData?)
      || (m.kind == RestartKind && (m.status == Request || m.status == Okay || m.status == Busy) && m.data.NoData?)
    ensures MesgSendable(m)
    ensures Deserialize(Serialized(m)) ==
            match m.data
            case PointData(p) => Some(m.(data := PointData(if p.id >= 0 then p else Point(p.id, []))))
            case SessionData(s) => Some(m.(data := SessionData(Session(s.sig, Rebuilt(s.cfg)))))
            case _ => Some(m)
  {
    assert MesgSendable(m);
    assert ArrivedMesg(m) == match m.data
                             case PointData(p) => m.(data := PointData(if p.id >= 0 then p else Point(p.id, [])))
                             case SessionData(s) => m.(data := SessionData(Session(s.sig, Rebuilt(s.cfg))))
                             case _ => m;
    hide Deserialize, Serialized, MesgSendable, DataNamed, ArrivedMesg, DataSendable, Rebuilt;
    MesgRoundTrip(m);
  }

  /** And these are all the messages there are: any other data does not go with its type
      and status, and no other type and status is written at all. */
  lemma NothingElseIsSent(m: Mesg)
    requires MesgSendable(m)
    ensures m.status != NoStatus && (m.kind == UnknownKind ==> m.status == Failed)
    ensures m.data.StringData? <==> m.status == Failed || m.kind == GetCfgKind || m.kind == SetCfgKind
    ensures m.data.SessionData? <==> m.kind == SessionKind && m.status == Request
    ensures m.data.JoinData? <==> m.kind == JoinKind && m.status != Failed
    ensures m.data.PointData? <==> (m.kind == BestKind || m.kind == FetchKind) && (m.status == Okay || m.status == Busy)
    ensures m.data.ReportData? <==> m.kind == ReportKind && m.status == Request
  {
    hide DataSendable;
  }

  /** A reply without a trial, byte by byte: the best point goes with it. */
  lemma BusyReply()
    ensures var m := Mesg(3, FetchKind, Busy, Null, PointData(Point(7, [])));
            && Serialized(m) == "Ray|003705:3:FET:BSY:0\"0\" hpoint:7 0 "
            && Deserialize("Ray|003705:3:FET:BSY:0\"0\" hpoint:7 0 ") == Some(m)
  {
    var m := Mesg(3, FetchKind, Busy, Null, PointData(Point(7, [])));
    BusyText();
    assert DataSendable(m.data) && DataNamed(m.data);
    hide Deserialize, Serialized, DataSendable, DataNamed;
    CarriedArrives(m);
  }

  lemma BusyText()
    ensures Serialized(Mesg(3, FetchKind, Busy, Null, PointData(Point(7, [])))) ==
            "Ray|003705:3:FET:BSY:0\"0\" hpoint:7 0 "
  {
    BusyBody();
    BusyHeader();
    var body := ":3:FET:BSY:0\"0\" hpoint:7 0 ";
    hide PrintBody, PrintHeader;
    assert HDRLEN + |body| == 37 && "Ray|003705" + body == "Ray|003705:3:FET:BSY:0\"0\" hpoint:7 0 ";
  }

  lemma BusyBody()
    ensures PrintBody(Mesg(3, FetchKind, Busy, Null, PointData(Point(7, [])))) == ":3:FET:BSY:0\"0\" hpoint:7 0 "
  {
    BusyPoint();
    assert PrintInt(3) == "3";
    hide PrintPoint, PrintInt;
    assert [':'] + "3" + [':'] + "FET" + [':'] + "BSY" + [':'] == ":3:FET:BSY:";
    assert ":3:FET:BSY:" + "0\"0\" " == ":3:FET:BSY:0\"0\" ";
    assert ":3:FET:BSY:0\"0\" " + "hpoint:7 0 " == ":3:FET:BSY:0\"0\" hpoint:7 0 ";
  }

  lemma BusyPoint()
    ensures PrintPoint(Point(7, [])) == "hpoint:7 0 "
  {
    assert IntItem(7) == "7 " && IntItem(0) == "0 " && PrintMany(PrintVal, []) == [];
    hide IntItem;
    assert "hpoint:" + "7 " + ("0 " + []) == "hpoint:7 0 ";
  }

  lemma BusyHeader()
    ensures PrintHeader(37) == "Ray|003705"
  {
    assert PrintNat(37) == PrintNat(3) + [Digit(7)] == "37";
    assert Pad("37", 4) == Pad("037", 4) == "0037";
  }

  lemma BehindHeader(body: string)
    requires HDRLEN + |body| <= 9999
    ensures Deserialize(PrintHeader(HDRLEN + |body|) + body) ==
            match ScanBody(body) case Bad => None case Good(m, _) => Some(m)
  {
    hide ScanBody, ReadHeader, PrintHeader;
    HeaderReadIff(HDRLEN + |body|, body);
    assert (PrintHeader(HDRLEN + |body|) + body)[HDRLEN..] == body;
  }

  /** A longer message can be taken for a shorter one: the header of one of 100005
      bytes announces 1000. */
  lemma LongHeaderMisread(rest: string)
    ensures ReadHeader(PrintHeader(100005) + rest) == Some(1000)
  {
    var digits := ['1', '0', '0', '0'];
    SixDigits();
    hide PrintNat, Pad, ScanInt4, ScanHex2;
    var s := PrintHeader(100005) + rest;
    assert s[..4] == Magic() && s[4..] == digits + (VersionText() + rest);
    Int4Read(digits, VersionText() + rest);
    VersionRead(rest);
    Thousand();
  }

  lemma SixDigits()
    ensures Pad(PrintNat(100005), 4) == ['1', '0', '0', '0', '0', '5']
  {
    assert PrintNat(1) == ['1'];
    assert PrintNat(10) == ['1', '0'];
    assert PrintNat(100) == ['1', '0', '0'];
    assert PrintNat(1000) == ['1', '0', '0', '0'];
    assert PrintNat(10000) == ['1', '0', '0', '0', '0'];
    assert PrintNat(100005) == ['1', '0', '0', '0', '0', '5'];
  }

  lemma Thousand()
    ensures NatValue(['1', '0', '0', '0']) == 1000
  {
    assert ['1', '0', '0', '0'][..3] == ['1', '0', '0'];
    assert ['1', '0', '0'][..2] == ['1', '0'];
    assert ['1', '0'][..1] == ['1'];
    assert ['1'][..0] == [];
    assert NatValue(['1']) == 1;
    assert NatValue(['1', '0']) == 10;
    assert NatValue(['1', '0', '0']) == 100;
  }
}
