/** What is read back when a printed component is read: the component itself, with
    nothing but the blank behind it left, or nothing at all. */
module RoundTrip {
  import opened Text
  import opened HashTable
  import opened HashMapping
  import HashRuns
  import opened Wire

  // ---- Items -------------------------------------------------------------

  lemma LiteralRead(lit: string, rest: string)
    ensures ScanLiteral(lit + rest, lit) == Good((), rest)
  {
    assert (lit + rest)[..|lit|] == lit && (lit + rest)[|lit|..] == rest;
  }

  lemma TagRead(tag: string, rest: string)
    requires StartsSolid(tag)
    ensures ScanTag([' '] + tag + rest, tag) == Good((), rest)
    ensures ScanTag(tag + rest, tag) == Good((), rest)
  {
    hide SkipSpace, ScanLiteral, IsSpace;
    assert [' '] + tag + rest == [' '] + (tag + rest);
    assert (tag + rest)[0] == tag[0];
    LiteralRead(tag, rest);
    SkipsBlank(tag + rest);
    SkipsNothing(tag + rest);
  }

  lemma IntRead(n: int, rest: string)
    ensures ScanInt(IntItem(n) + rest) == Good(n, [' '] + rest)
    ensures ScanInt([' '] + IntItem(n) + rest) == Good(n, [' '] + rest)
  {
    assert IntItem(n) + rest == PrintInt(n) + ([' '] + rest);
    assert [' '] + IntItem(n) + rest == [' '] + (IntItem(n) + rest);
    hide PrintInt, ScanInt, IntItem;
    IntRoundTrip(n, [' '] + rest);
    BlankFirst(IntItem(n) + rest);
  }

  lemma CountRead(n: nat, rest: string)
    ensures ScanCount([' '] + IntItem(n) + rest) == Good(n, [' '] + rest)
  {
    IntRead(n, rest);
  }

  lemma TokenRead(t: string, rest: string)
    requires IsToken(t)
    ensures ScanToken([' '] + TokenItem(t) + rest) == Good(t, [' '] + rest)
  {
    assert [' '] + TokenItem(t) + rest == [' '] + (t + ([' '] + rest));
    hide ScanToken, TokenItem;
    TokenRoundTrip(t, [' '] + rest);
    BlankFirst(t + ([' '] + rest));
  }

  lemma StrRead(s: Str, rest: string)
    ensures ScanStr([' '] + PrintStr(s) + rest) == Good(s, [' '] + rest)
    ensures ScanStr(PrintStr(s) + rest) == Good(s, [' '] + rest)
  {
    assert [' '] + PrintStr(s) + rest == [' '] + (PrintStr(s) + rest);
    hide ScanStr, PrintStr;
    StrRoundTrip(s, rest);
    BlankFirst(PrintStr(s) + rest);
  }

  lemma TypeItemRead(t: ValType, rest: string)
    ensures ScanType(TypeWord(t) + rest) == Good(t, rest)
    ensures ScanType([' '] + TypeWord(t) + rest) == Good(t, rest)
  {
    TypeRead(t);
    assert [' '] + TypeWord(t) + rest == [' '] + (TypeWord(t) + rest);
    hide TypeWord, TypeOf, ScanWord;
    WordRoundTrip(TypeWord(t), rest);
    BlankFirst(TypeWord(t) + rest);
  }

  // ---- Values and points -------------------------------------------------

  /** The value can be sent: it has a type, and a number of it is a token. */
  predicate Sendable(v: Val) {
    !v.NoVal? && (v.RealVal? ==> IsToken(v.token))
  }

  lemma ValRead(v: Val, rest: string)
    requires Sendable(v)
    ensures ScanVal([' '] + PrintVal(v) + rest) == Good(v, [' '] + rest)
  {
    hide ScanTag, ScanType, ScanInt, ScanToken, ScanStr, TypeWord, ValTag, IntItem, TokenItem, PrintStr, IsToken;
    var type_ := match v case IntVal(_) => IntType case RealVal(_) => RealType case StrVal(_) => StrType;
    var item := match v case IntVal(i) => IntItem(i) case RealVal(t) => TokenItem(t) case StrVal(s) => PrintStr(s);
    var tail := [' '] + item + rest;
    assert [' '] + PrintVal(v) + rest == [' '] + ValTag() + (TypeWord(type_) + tail);
    TagRead(ValTag(), TypeWord(type_) + tail);
    TypeItemRead(type_, tail);
    match v
    case IntVal(i) => IntRead(i, rest);
    case RealVal(t) => TokenRead(t, rest);
    case StrVal(s) => StrRead(s, rest);
  }

  predicate Always<T>(v: T) {
    true
  }

  lemma ValReadsBack(v: Val)
    requires Sendable(v)
    ensures ReadsBack(PrintVal, ScanVal, Always, v)
  {
    forall rest: string
      ensures ScanVal([' '] + PrintVal(v) + rest) == Good(v, [' '] + rest)
    {
      ValRead(v, rest);
    }
  }

  predicate PointSendable(p: Point) {
    p.id >= 0 ==> forall v :: v in p.vals ==> Sendable(v)
  }

  /** What arrives of a point: one that is not a real candidate loses its values. */
  function Arrived(p: Point): Point {
    if p.id >= 0 then p else Point(p.id, [])
  }

  lemma ValsRead(id: int, vals: seq<Val>, rest: string)
    requires forall v :: v in vals ==> Sendable(v)
    ensures ScanVals(id, [' '] + IntItem(|vals|) + PrintMany(PrintVal, vals) + rest) ==
            Good(Point(id, vals), [' '] + rest)
  {
    hide ReadsBack, PrintMany, ScanMany, ScanVal, PrintVal, ScanCount, IntItem, Sendable;
    var tail := PrintMany(PrintVal, vals) + rest;
    assert [' '] + IntItem(|vals|) + PrintMany(PrintVal, vals) + rest == [' '] + IntItem(|vals|) + tail;
    CountRead(|vals|, tail);
    forall v | v in vals
      ensures ReadsBack(PrintVal, ScanVal, Always, v)
    {
      ValReadsBack(v);
    }
    ManyRoundTrip(PrintVal, ScanVal, Always, vals, rest);
    assert [' '] + PrintMany(PrintVal, vals) + rest == [' '] + tail;
  }

  lemma PointRead(p: Point, rest: string)
    requires PointSendable(p)
    ensures ScanPoint([' '] + PrintPoint(p) + rest) == Good(Arrived(p), [' '] + rest)
  {
    hide ScanTag, ScanInt, ScanVals, IntItem, PointTag, PrintMany, Sendable;
    var vals := if p.id >= 0 then IntItem(|p.vals|) + PrintMany(PrintVal, p.vals) else [];
    var tail := IntItem(p.id) + (vals + rest);
    assert [' '] + PrintPoint(p) + rest == [' '] + PointTag() + tail;
    TagRead(PointTag(), tail);
    IntRead(p.id, vals + rest);
    if p.id >= 0 {
      ValsRead(p.id, p.vals, rest);
      assert [' '] + (vals + rest) == [' '] + IntItem(|p.vals|) + PrintMany(PrintVal, p.vals) + rest;
    } else {
      assert [' '] + (vals + rest) == [' '] + rest;
    }
  }

  // ---- Performances ------------------------------------------------------

  predicate PerfSendable(perf: seq<string>) {
    forall t :: t in perf ==> IsToken(t)
  }

  lemma PerfRead(perf: seq<string>, rest: string)
    requires PerfSendable(perf)
    ensures ScanPerf([' '] + PrintPerf(perf) + rest) == Good(perf, [' '] + rest)
  {
    hide ScanTag, ScanCount, ScanMany, IntItem, PerfTag, PrintMany, IsToken, ReadsBack, ScanToken, TokenItem;
    var many := PrintMany(TokenItem, perf) + rest;
    var tail := [' '] + IntItem(|perf|) + many;
    assert [' '] + PrintPerf(perf) + rest == [' '] + PerfTag() + tail;
    TagRead(PerfTag(), tail);
    CountRead(|perf|, many);
    forall t | t in perf
      ensures ReadsBack(TokenItem, ScanToken, Always, t)
    {
      TokenReadsBack(t);
    }
    ManyRoundTrip(TokenItem, ScanToken, Always, perf, rest);
    assert [' '] + PrintMany(TokenItem, perf) + rest == [' '] + many;
  }

  lemma TokenReadsBack(t: string)
    requires IsToken(t)
    ensures ReadsBack(TokenItem, ScanToken, Always, t)
  {
    forall rest: string
      ensures ScanToken([' '] + TokenItem(t) + rest) == Good(t, [' '] + rest)
    {
      TokenRead(t, rest);
    }
  }

  // ---- Ranges and signatures ----------------------------------------------

  predicate IsNamed(s: Str) {
    s.Chars?
  }

  predicate RangeSendable(r: Range) {
    match r
    case IntRange(_, _, _, _) => true
    case RealRange(_, low, high, stride) => IsToken(low) && IsToken(high) && IsToken(stride)
    case EnumRange(_, _) => true
    case NoRange(_) => false
  }

  /** The range's name and the members it enumerates are strings. */
  predicate RangeNamed(r: Range) {
    IsNamed(r.name) && MembersNamed(r)
  }

  predicate MembersNamed(r: Range) {
    r.EnumRange? ==> forall m :: m in r.members ==> IsNamed(m)
  }

  lemma NameRead(s: Str, rest: string)
    ensures ScanName([' '] + PrintStr(s) + rest) == if IsNamed(s) then Good(s, [' '] + rest) else Bad
  {
    StrRead(s, rest);
  }

  lemma NameReadsBack(s: Str)
    ensures ReadsBack(PrintStr, ScanName, IsNamed, s)
  {
    forall rest: string
      ensures ScanName([' '] + PrintStr(s) + rest) == if IsNamed(s) then Good(s, [' '] + rest) else Bad
    {
      NameRead(s, rest);
    }
  }

  lemma IntBoundsRead(r: Range, rest: string)
    requires r.IntRange?
    ensures ScanBounds(r.name, IntType, [' '] + IntItem(r.min) + IntItem(r.max) + IntItem(r.step) + rest) ==
            Good(r, [' '] + rest)
  {
    hide ScanInt, IntItem;
    var c := IntItem(r.step) + rest;
    var b := IntItem(r.max) + c;
    IntRead(r.min, b);
    IntRead(r.max, c);
    IntRead(r.step, rest);
    assert [' '] + IntItem(r.min) + IntItem(r.max) + IntItem(r.step) + rest == [' '] + IntItem(r.min) + b;
    assert [' '] + b == [' '] + IntItem(r.max) + c;
    assert [' '] + c == [' '] + IntItem(r.step) + rest;
  }

  lemma RealBoundsRead(r: Range, rest: string)
    requires r.RealRange? && RangeSendable(r)
    ensures ScanBounds(r.name, RealType, [' '] + TokenItem(r.low) + TokenItem(r.high) + TokenItem(r.stride) + rest) ==
            Good(r, [' '] + rest)
  {
    hide ScanToken, TokenItem, IsToken;
    var c := TokenItem(r.stride) + rest;
    var b := TokenItem(r.high) + c;
    TokenRead(r.low, b);
    TokenRead(r.high, c);
    TokenRead(r.stride, rest);
    assert [' '] + TokenItem(r.low) + TokenItem(r.high) + TokenItem(r.stride) + rest == [' '] + TokenItem(r.low) + b;
    assert [' '] + b == [' '] + TokenItem(r.high) + c;
    assert [' '] + c == [' '] + TokenItem(r.stride) + rest;
  }

  lemma EnumBoundsRead(r: Range, rest: string)
    requires r.EnumRange?
    ensures ScanBounds(r.name, StrType, [' '] + IntItem(|r.members|) + PrintMany(PrintStr, r.members) + rest) ==
            if MembersNamed(r) then Good(r, [' '] + rest) else Bad
  {
    hide ScanCount, IntItem, PrintMany, ScanMany, PrintStr, ScanName, ReadsBack, IsNamed;
    var many := PrintMany(PrintStr, r.members) + rest;
    assert [' '] + IntItem(|r.members|) + PrintMany(PrintStr, r.members) + rest == [' '] + IntItem(|r.members|) + many;
    CountRead(|r.members|, many);
    forall m | m in r.members
      ensures ReadsBack(PrintStr, ScanName, IsNamed, m)
    {
      NameReadsBack(m);
    }
    ManyRoundTrip(PrintStr, ScanName, IsNamed, r.members, rest);
    assert [' '] + PrintMany(PrintStr, r.members) + rest == [' '] + many;
  }

  function TypeOfRange(r: Range): ValType
    requires !r.NoRange?
  {
    match r
    case IntRange(_, _, _, _) => IntType
    case RealRange(_, _, _, _) => RealType
    case EnumRange(_, _) => StrType
  }

  /** The bounds behind the type word. */
  lemma BoundsRead(r: Range, rest: string) returns (tail: string)
    requires RangeSendable(r)
    ensures PrintBounds(r) + rest == TypeWord(TypeOfRange(r)) + tail
    ensures ScanBounds(r.name, TypeOfRange(r), tail) ==
            if MembersNamed(r) then Good(r, [' '] + rest) else Bad
  {
    hide ScanBounds, IntItem, TokenItem, PrintMany, PrintStr, IsToken, TypeWord;
    match r {
      case IntRange(_, min, max, step) =>
        tail := [' '] + IntItem(min) + IntItem(max) + IntItem(step) + rest;
        IntBoundsRead(r, rest);
      case RealRange(_, low, high, stride) =>
        tail := [' '] + TokenItem(low) + TokenItem(high) + TokenItem(stride) + rest;
        RealBoundsRead(r, rest);
      case EnumRange(_, members) =>
        tail := [' '] + IntItem(|members|) + PrintMany(PrintStr, members) + rest;
        EnumBoundsRead(r, rest);
    }
  }

  lemma RangeRead(r: Range, rest: string)
    requires RangeSendable(r)
    ensures ScanRange([' '] + PrintRange(r) + rest) == if RangeNamed(r) then Good(r, [' '] + rest) else Bad
  {
    assert !r.NoRange?;
    hide ScanTag, ScanName, ScanType, ScanBounds, PrintStr, PrintBounds, TypeWord, RangeTag, RangeSendable,
         MembersNamed;
    var bounds := BoundsRead(r, rest);
    var tail := [' '] + PrintStr(r.name) + (PrintBounds(r) + rest);
    Assoc([' '], PrintRange(r), rest);
    Assoc(RangeTag() + [' '] + PrintStr(r.name), PrintBounds(r), rest);
    Assoc(RangeTag() + [' '], PrintStr(r.name), PrintBounds(r) + rest);
    Assoc(RangeTag(), [' '], PrintStr(r.name) + (PrintBounds(r) + rest));
    Assoc([' '], PrintStr(r.name), PrintBounds(r) + rest);
    Assoc([' '], RangeTag(), tail);
    TagRead(RangeTag(), tail);
    NameRead(r.name, PrintBounds(r) + rest);
    Assoc([' '], TypeWord(TypeOfRange(r)), bounds);
    TypeItemRead(TypeOfRange(r), bounds);
  }

  lemma RangeReadsBack(r: Range)
    requires RangeSendable(r)
    ensures ReadsBack(PrintRange, ScanRange, RangeNamed, r)
  {
    forall rest: string
      ensures ScanRange([' '] + PrintRange(r) + rest) == if RangeNamed(r) then Good(r, [' '] + rest) else Bad
    {
      RangeRead(r, rest);
    }
  }

  predicate SignatureSendable(sig: Signature) {
    forall r :: r in sig.ranges ==> RangeSendable(r)
  }

  /** Nothing that has to be a string is null. */
  predicate SignatureNamed(sig: Signature) {
    IsNamed(sig.name) && forall r :: r in sig.ranges ==> RangeNamed(r)
  }

  /** A signature reads back exactly when all its names are strings; one with a
      null name among them is refused by the reader. */
  lemma SignatureRead(sig: Signature, rest: string)
    requires SignatureSendable(sig)
    ensures ScanSignature([' '] + PrintSignature(sig) + rest) ==
            if SignatureNamed(sig) then Good(sig, [' '] + rest) else Bad
  {
    hide ScanTag, ScanName, ScanCount, ScanMany, PrintStr, PrintMany, IntItem, SigTag, RangeSendable, ReadsBack,
         RangeNamed, IsNamed, PrintRange, ScanRange;
    var many := PrintMany(PrintRange, sig.ranges) + rest;
    var tail := [' '] + PrintStr(sig.name) + (IntItem(|sig.ranges|) + many);
    assert [' '] + PrintSignature(sig) + rest == [' '] + SigTag() + tail;
    TagRead(SigTag(), tail);
    NameRead(sig.name, IntItem(|sig.ranges|) + many);
    assert [' '] + (IntItem(|sig.ranges|) + many) == [' '] + IntItem(|sig.ranges|) + many;
    CountRead(|sig.ranges|, many);
    forall r | r in sig.ranges
      ensures ReadsBack(PrintRange, ScanRange, RangeNamed, r)
    {
      RangeReadsBack(r);
    }
    ManyRoundTrip(PrintRange, ScanRange, RangeNamed, sig.ranges, rest);
    assert [' '] + PrintMany(PrintRange, sig.ranges) + rest == [' '] + many;
  }

  // ---- Configurations and sessions ----------------------------------------

  lemma PairRead(pair: (string, Str), rest: string)
    ensures ScanPair([' '] + PrintPair(pair) + rest) == Good(pair, [' '] + rest)
  {
    hide ScanStr, PrintStr;
    StrRead(Chars(pair.0), PrintStr(pair.1) + rest);
    StrRead(pair.1, rest);
    assert [' '] + PrintPair(pair) + rest == [' '] + PrintStr(Chars(pair.0)) + (PrintStr(pair.1) + rest);
    assert [' '] + (PrintStr(pair.1) + rest) == [' '] + PrintStr(pair.1) + rest;
  }

  lemma PairReadsBack(pair: (string, Str))
    ensures ReadsBack(PrintPair, ScanPair, Always, pair)
  {
    forall rest: string
      ensures ScanPair([' '] + PrintPair(pair) + rest) == Good(pair, [' '] + rest)
    {
      PairRead(pair, rest);
    }
  }

  /** Setting pairs without null values is setting the list. */
  lemma {:induction false} SetPairsIsSetAll(t: Table, list: seq<(string, string)>)
    requires Sized(t)
    ensures SetPairs(t, Pairs(list)) == SetAll(t, list)
    decreases |list|
  {
    hide Insert, Sized, Delete;
    if list != [] {
      assert Pairs(list)[1..] == Pairs(list[1..]);
      var (u, ok) := Insert(t, list[0].0, list[0].1);
      if ok && Sized(u) {
        SetPairsIsSetAll(u, list[1..]);
      }
    }
  }

  /** What arrives of a configuration. */
  function Rebuilt(t: Table): Table {
    var empty := Resize(NewTable(), t.logsize);
    if Sized(empty) then SetAll(empty, Listing(t.slots)).0 else empty
  }

  /** What arrives can be found, all of it, and binds each key to the value of the last
      slot that has it; it is the same configuration exactly if all that was sent could
      be found, each key once. */
  ghost predicate ArrivesAs(t: Table, u: Table) {
    && Sized(t) && Sound(u) && Light(u) && u.logsize == t.logsize && u.count <= t.count
    && (u.count == t.count <==> DistinctKeys(t.slots))
    && (forall k :: Lookup(u, k) == LastWith(t.slots, k))
    && (SameConfiguration(t, u) <==> NoGaps(t.slots, t.logsize) && DistinctKeys(t.slots))
  }

  lemma RebuiltMeans(t: Table)
    requires Loose(t)
    ensures Sized(Resize(NewTable(), t.logsize))
    ensures SetAll(Resize(NewTable(), t.logsize), Listing(t.slots)) == (Rebuilt(t), true)
    ensures ArrivesAs(t, Rebuilt(t))
  {
    WireRoundTrip(t);
    WireSameIff(t);
    hide Sound, Light, NoGaps, DistinctKeys, Lookup, LastWith, SetAll, Resize, NewTable, Listing, SameConfiguration;
  }

  lemma EntriesRead(t: Table, rest: string)
    requires Loose(t)
    ensures var list := Pairs(Listing(t.slots));
            ScanEntries(|list|, t.logsize, [' '] + PrintMany(PrintPair, list) + rest) == Good(Rebuilt(t), [' '] + rest)
  {
    RebuiltMeans(t);
    var list := Pairs(Listing(t.slots));
    SetPairsIsSetAll(Resize(NewTable(), t.logsize), Listing(t.slots));
    hide Rebuilt, Resize, NewTable, SetAll, Listing, Sized, Loose, ArrivesAs,
         ScanMany, PrintMany, PrintPair, ScanPair, SetPairs, Pairs, ReadsBack;
    forall pair | pair in list
      ensures ReadsBack(PrintPair, ScanPair, Always, pair)
    {
      PairReadsBack(pair);
    }
    ManyRoundTrip(PrintPair, ScanPair, Always, list, rest);
  }

  lemma CfgRead(t: Table, rest: string)
    requires Loose(t)
    ensures ScanCfg([' '] + PrintCfg(t) + rest) == Good(Rebuilt(t), [' '] + rest)
    ensures ArrivesAs(t, Rebuilt(t))
  {
    RebuiltMeans(t);
    EntriesRead(t, rest);
    var list := Pairs(Listing(t.slots));
    assert t.count == |list|;
    hide Rebuilt, Listing, Loose, ArrivesAs, ScanTag, ScanInt, PrintMany, CfgTag, IntItem, Pairs, ScanEntries;
    var many := PrintMany(PrintPair, list) + rest;
    var tail := IntItem(t.count) + (IntItem(t.logsize) + many);
    Assoc([' '], PrintCfg(t), rest);
    Assoc(CfgTag() + IntItem(t.count) + IntItem(t.logsize), PrintMany(PrintPair, list), rest);
    Assoc(CfgTag() + IntItem(t.count), IntItem(t.logsize), many);
    Assoc(CfgTag(), IntItem(t.count), IntItem(t.logsize) + many);
    Assoc([' '], CfgTag(), tail);
    TagRead(CfgTag(), tail);
    IntRead(t.count, IntItem(t.logsize) + many);
    Assoc([' '], IntItem(t.logsize), many);
    IntRead(t.logsize, many);
    Assoc([' '], PrintMany(PrintPair, list), rest);
  }

  /** So arrives every configuration that a run of operations, any deletions among
      them, leaves. */
  lemma RunArrives(tables: seq<Table>, ops: seq<HashRuns.Op>, n: nat, rest: string)
    requires HashRuns.IsLooseRun(tables, ops) && n < |tables|
    ensures ScanCfg([' '] + PrintCfg(tables[n]) + rest) == Good(Rebuilt(tables[n]), [' '] + rest)
    ensures ArrivesAs(tables[n], Rebuilt(tables[n]))
  {
    HashRuns.RunStaysLoose(tables, ops, n);
    CfgRead(tables[n], rest);
  }

  ghost predicate SessionSendable(s: Session) {
    SignatureSendable(s.sig) && Loose(s.cfg)
  }

  lemma SessionRead(s: Session, rest: string)
    requires SessionSendable(s)
    ensures ScanSession([' '] + PrintSession(s) + rest) ==
            if SignatureNamed(s.sig) then Good(Session(s.sig, Rebuilt(s.cfg)), [' '] + rest) else Bad
    ensures ArrivesAs(s.cfg, Rebuilt(s.cfg))
  {
    hide ScanTag, ScanSignature, ScanCfg, PrintSignature, PrintCfg, SessionTag, SignatureSendable, Loose, ArrivesAs,
         SignatureNamed, Rebuilt;
    var tail := [' '] + PrintSignature(s.sig) + (PrintCfg(s.cfg) + rest);
    assert [' '] + PrintSession(s) + rest == [' '] + SessionTag() + tail;
    TagRead(SessionTag(), tail);
    SignatureRead(s.sig, PrintCfg(s.cfg) + rest);
    assert [' '] + (PrintCfg(s.cfg) + rest) == [' '] + PrintCfg(s.cfg) + rest;
    CfgRead(s.cfg, rest);
  }

  // ---- Messages ----------------------------------------------------------

  ghost predicate DataSendable(data: Data) {
    match data
    case SessionData(s) => SessionSendable(s)
    case JoinData(sig) => SignatureSendable(sig)
    case PointData(p) => PointSendable(p)
    case ReportData(_, perf) => PerfSendable(perf)
    case NoData | StringData(_) => true
  }

  /** The data has no null where the reader needs a string. */
  predicate DataNamed(data: Data) {
    match data
    case SessionData(s) => SignatureNamed(s.sig)
    case JoinData(sig) => SignatureNamed(sig)
    case NoData | PointData(_) | ReportData(_, _) | StringData(_) => true
  }

  /** What arrives of the data. */
  function ArrivedData(data: Data): Data {
    match data
    case SessionData(s) => SessionData(Session(s.sig, Rebuilt(s.cfg)))
    case PointData(p) => PointData(Arrived(p))
    case JoinData(_) | NoData | ReportData(_, _) | StringData(_) => data
  }

  lemma ReportRead(candidate: int, perf: seq<string>, rest: string)
    requires PerfSendable(perf)
    ensures ScanReport([' '] + PrintData(ReportData(candidate, perf)) + rest) ==
            Good(ReportData(candidate, perf), [' '] + rest)
  {
    hide ScanInt, ScanPerf, IntItem, PrintPerf, PerfSendable;
    var tail := PrintPerf(perf) + rest;
    assert [' '] + PrintData(ReportData(candidate, perf)) + rest == [' '] + IntItem(candidate) + tail;
    IntRead(candidate, tail);
    assert [' '] + tail == [' '] + PrintPerf(perf) + rest;
    PerfRead(perf, rest);
  }

  lemma DataRead(payload: Payload, data: Data, rest: string)
    requires DataFits(data, payload) && DataSendable(data)
    ensures ScanData(payload, [' '] + PrintData(data) + rest) ==
            if DataNamed(data) then Good(ArrivedData(data), [' '] + rest) else Bad
  {
    if data.ReportData? {
      ReportRead(data.candidate, data.perf, rest);
    }
    hide ScanSession, ScanSignature, ScanPoint, ScanReport, ScanStr, PrintSession, PrintSignature, PrintPoint, PrintStr,
         PrintPerf, IntItem, SessionSendable, SignatureSendable, PointSendable, PerfSendable, SignatureNamed, Rebuilt,
         Arrived;
    match data
    case SessionData(s) => SessionRead(s, rest);
    case JoinData(sig) => SignatureRead(sig, rest);
    case PointData(p) => PointRead(p, rest);
    case ReportData(_, _) =>
    case StringData(s) => StrRead(s, rest);
    case NoData => assert [' '] + PrintData(data) + rest == [' '] + rest;
  }

  /** The message can be written: its data is what its type and status carry. */
  ghost predicate MesgSendable(m: Mesg) {
    DataFits(m.data, PayloadOf(m.kind, m.status)) && DataSendable(m.data)
  }

  lemma WordRead(word: string, rest: string)
    requires IsWord(word)
    ensures ScanWord(word + rest, 3) == Good(word, rest)
  {
    WordRoundTrip(word, rest);
  }

  lemma FrontEndRead(dest: int, kind: string, status: string, rest: string)
    requires IsWord(status)
    ensures ScanFrontEnd(dest, kind, [':'] + (status + ([':'] + rest))) == Good(Front(dest, kind, status), rest)
  {
    hide ScanLiteral, ScanWord, IsWord;
    LiteralRead([':'], status + ([':'] + rest));
    WordRead(status, [':'] + rest);
    LiteralRead([':'], rest);
  }

  lemma FrontRead(dest: int, kind: string, status: string, rest: string)
    requires IsWord(kind) && IsWord(status)
    ensures ScanFront([':'] + (PrintInt(dest) + ([':'] + (kind + ([':'] + (status + ([':'] + rest))))))) ==
            Good(Front(dest, kind, status), rest)
  {
    hide ScanLiteral, ScanWord, IsWord, ScanTag, ScanInt, PrintInt, ScanFrontEnd;
    var d := [':'] + (status + ([':'] + rest));
    var c := [':'] + (kind + d);
    TagRead([':'], PrintInt(dest) + c);
    IntRoundTrip(dest, c);
    LiteralRead([':'], kind + d);
    WordRead(kind, d);
    FrontEndRead(dest, kind, status, rest);
  }

  /** What arrives of a message. */
  function ArrivedMesg(m: Mesg): Mesg {
    m.(data := ArrivedData(m.data))
  }

  lemma CarriedRead(m: Mesg)
    requires MesgSendable(m)
    ensures ScanCarried(m.dest, m.kind, m.status, m.srcId, [' '] + PrintData(m.data)) ==
            if DataNamed(m.data) then Good(ArrivedMesg(m), [' ']) else Bad
  {
    hide ScanData, PrintData, PayloadOf, DataFits, DataSendable, DataNamed, ArrivedData;
    DataRead(PayloadOf(m.kind, m.status), m.data, []);
    assert [' '] + PrintData(m.data) + [] == [' '] + PrintData(m.data);
    assert [' '] + [] == [' '];
  }

  lemma BodyNested(dest: int, k: string, t: string, src: string, data: string)
    ensures [':'] + PrintInt(dest) + [':'] + k + [':'] + t + [':'] + src + data ==
            [':'] + (PrintInt(dest) + ([':'] + (k + ([':'] + (t + ([':'] + (src + data)))))))
  {
    hide PrintInt;
    var d := PrintInt(dest);
    Assoc([':'] + d + [':'] + k + [':'] + t + [':'], src, data);
    Assoc([':'] + d + [':'] + k + [':'] + t, [':'], src + data);
    Assoc([':'] + d + [':'] + k + [':'], t, [':'] + (src + data));
    Assoc([':'] + d + [':'] + k, [':'], t + ([':'] + (src + data)));
    Assoc([':'] + d + [':'], k, [':'] + (t + ([':'] + (src + data))));
    Assoc([':'] + d, [':'], k + ([':'] + (t + ([':'] + (src + data)))));
    Assoc([':'], d, [':'] + (k + ([':'] + (t + ([':'] + (src + data))))));
  }

  /** A message of any type and status is read back from its text, unless a name
      in it is null, in which case it is refused. */
  lemma BodyRead(m: Mesg)
    requires MesgSendable(m)
    ensures ScanBody(PrintBody(m)) == if DataNamed(m.data) then Good(ArrivedMesg(m), [' ']) else Bad
  {
    assert !m.status.NoStatus?;
    KindRead(m.kind);
    StatusRead(m.status);
    CarriedRead(m);
    hide ScanFront, ScanStr, ScanCarried, KindOf, StatusOf, KindWord, StatusWord, PrintInt, PrintStr, PrintData,
         MesgSendable, DataNamed, ArrivedMesg, IsWord;
    var rest := PrintStr(m.srcId) + PrintData(m.data);
    FrontRead(m.dest, KindWord(m.kind), StatusWord(m.status), rest);
    var k, t := KindWord(m.kind), StatusWord(m.status);
    BodyNested(m.dest, k, t, PrintStr(m.srcId), PrintData(m.data));
    StrRead(m.srcId, PrintData(m.data));
  }

  /** What arrives is what was sent, up to what becomes of a configuration and the
      values of a point that is not a candidate. */
  ghost predicate SameMesg(m: Mesg, n: Mesg) {
    && n == m.(data := n.data)
    && match m.data
       case SessionData(s) =>
         n.data.SessionData? && n.data.session.sig == s.sig && ArrivesAs(s.cfg, n.data.session.cfg)
       case PointData(p) => n.data.PointData? && n.data.point.id == p.id && (p.id >= 0 ==> n.data.point == p)
       case NoData | JoinData(_) | ReportData(_, _) | StringData(_) => n.data == m.data
  }

  lemma ArrivedIsSame(m: Mesg)
    requires MesgSendable(m)
    ensures SameMesg(m, ArrivedMesg(m))
  {
    if m.data.SessionData? {
      RebuiltMeans(m.data.session.cfg);
    }
  }

  /** A point arrives unchanged exactly when it is a candidate or has no values. */
  lemma PointArrivesIff(p: Point)
    ensures Arrived(p) == p <==> p.id >= 0 || p.vals == []
  {}
}
