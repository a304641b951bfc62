/** The messages between clients and server: how each component is printed and how
    it is read back. */
module Wire {
  import opened Text
  import opened HashTable
  import opened HashMapping

  // ---- What is sent ------------------------------------------------------

  /** A value; a floating-point number is the token %la prints for it. */
  datatype Val = IntVal(i: int) | RealVal(token: string) | StrVal(str: Str) | NoVal

  datatype Point = Point(id: int, vals: seq<Val>)

  datatype Range =
    | IntRange(name: Str, min: int, max: int, step: int)
    | RealRange(name: Str, low: string, high: string, stride: string)
    | EnumRange(name: Str, members: seq<Str>)
    | NoRange(name: Str)

  datatype Signature = Signature(name: Str, ranges: seq<Range>)

  datatype Session = Session(sig: Signature, cfg: Table)

  datatype Kind = UnknownKind | SessionKind | JoinKind | GetCfgKind | SetCfgKind | BestKind | FetchKind | ReportKind
                | RestartKind

  datatype Status = NoStatus | Request | Okay | Failed | Busy

  datatype Data =
    | NoData
    | SessionData(session: Session)
    | JoinData(join: Signature)
    | PointData(point: Point)
    | ReportData(candidate: int, perf: seq<string>)
    | StringData(str: Str)

  datatype Mesg = Mesg(dest: int, kind: Kind, status: Status, srcId: Str, data: Data)

  /** What a message of each type and status carries. */
  datatype Payload = NoPayload | SessionPayload | JoinPayload | PointPayload | ReportPayload | StringPayload | Refused

  function PayloadOf(kind: Kind, status: Status): Payload {
    if status == NoStatus then Refused
    else if status == Failed then StringPayload
    else match kind
      case SessionKind => if status == Request then SessionPayload else NoPayload
      case JoinKind => JoinPayload
      case GetCfgKind | SetCfgKind => StringPayload
      case BestKind | FetchKind => if status == Okay || status == Busy then PointPayload else NoPayload
      case ReportKind => if status == Request then ReportPayload else NoPayload
      case RestartKind => NoPayload
      case UnknownKind => Refused
  }

  predicate DataFits(data: Data, payload: Payload) {
    match payload
    case NoPayload => data.NoData?
    case SessionPayload => data.SessionData?
    case JoinPayload => data.JoinData?
    case PointPayload => data.PointData?
    case ReportPayload => data.ReportData?
    case StringPayload => data.StringData?
    case Refused => false
  }

  // ---- Fixed words -------------------------------------------------------

  predicate StartsSolid(s: string) {
    s != [] && !IsSpace(s[0])
  }

  predicate IsWord(s: string) {
    |s| == 3 && forall k :: 0 <= k < 3 ==> !IsSpace(s[k])
  }

  function ValTag(): (s: string) ensures StartsSolid(s) { "hval:" }
  function PointTag(): (s: string) ensures StartsSolid(s) { "hpoint:" }
  function PerfTag(): (s: string) ensures StartsSolid(s) { "perf:" }
  function RangeTag(): (s: string) ensures StartsSolid(s) { "range:" }
  function SigTag(): (s: string) ensures StartsSolid(s) { "sig:" }
  function CfgTag(): (s: string) ensures StartsSolid(s) { "hcfg:" }
  function SessionTag(): (s: string) ensures StartsSolid(s) { "session:" }

  datatype ValType = IntType | RealType | StrType

  function TypeWord(t: ValType): (s: string)
    ensures IsWord(s)
  {
    match t
    case IntType => "INT"
    case RealType => "REL"
    case StrType => "STR"
  }

  function TypeOf(word: string): Option<ValType> {
    if word == "INT" then Some(IntType)
    else if word == "REL" then Some(RealType)
    else if word == "STR" then Some(StrType)
    else None
  }

  lemma TypeRead(t: ValType)
    ensures TypeOf(TypeWord(t)) == Some(t)
  {}

  function KindWord(kind: Kind): (s: string)
    ensures IsWord(s)
  {
    match kind
    case UnknownKind => "UNK"
    case SessionKind => "SES"
    case JoinKind => "JOI"
    case GetCfgKind => "QRY"
    case SetCfgKind => "INF"
    case BestKind => "BST"
    case FetchKind => "FET"
    case ReportKind => "REP"
    case RestartKind => "RES"
  }

  function KindOf(word: string): Option<Kind> {
    if word == "UNK" then Some(UnknownKind)
    else if word == "SES" then Some(SessionKind)
    else if word == "JOI" then Some(JoinKind)
    else if word == "QRY" then Some(GetCfgKind)
    else if word == "INF" then Some(SetCfgKind)
    else if word == "BST" then Some(BestKind)
    else if word == "FET" then Some(FetchKind)
    else if word == "REP" then Some(ReportKind)
    else if word == "RES" then Some(RestartKind)
    else None
  }

  lemma KindRead(kind: Kind)
    ensures KindOf(KindWord(kind)) == Some(kind)
  {}

  /** A message without a status is refused before its word would be printed. */
  function StatusWord(status: Status): (s: string)
    ensures IsWord(s)
  {
    match status
    case NoStatus => "???"
    case Request => "REQ"
    case Okay => "ACK"
    case Failed => "ERR"
    case Busy => "BSY"
  }

  function StatusOf(word: string): (r: Option<Status>)
    ensures r.Some? ==> !r.value.NoStatus?
  {
    if word == "REQ" then Some(Request)
    else if word == "ACK" then Some(Okay)
    else if word == "ERR" then Some(Failed)
    else if word == "BSY" then Some(Busy)
    else None
  }

  lemma StatusRead(status: Status)
    requires !status.NoStatus?
    ensures StatusOf(StatusWord(status)) == Some(status)
  {}

  // ---- Printing ----------------------------------------------------------

  /** A number or a token with the blank the formats put behind it. */
  function IntItem(n: int): string { PrintInt(n) + [' '] }
  function TokenItem(t: string): string { t + [' '] }

  function PrintVal(v: Val): string {
    match v
    case IntVal(i) => ValTag() + TypeWord(IntType) + [' '] + IntItem(i)
    case RealVal(t) => ValTag() + TypeWord(RealType) + [' '] + TokenItem(t)
    case StrVal(s) => ValTag() + TypeWord(StrType) + [' '] + PrintStr(s)
    case NoVal => []
  }

  function PrintPoint(p: Point): string {
    PointTag() + IntItem(p.id) + if p.id >= 0 then IntItem(|p.vals|) + PrintMany(PrintVal, p.vals) else []
  }

  function PrintPerf(perf: seq<string>): string {
    PerfTag() + [' '] + IntItem(|perf|) + PrintMany(TokenItem, perf)
  }

  function PrintBounds(r: Range): string {
    match r
    case IntRange(_, min, max, step) => TypeWord(IntType) + [' '] + IntItem(min) + IntItem(max) + IntItem(step)
    case RealRange(_, low, high, stride) =>
      TypeWord(RealType) + [' '] + TokenItem(low) + TokenItem(high) + TokenItem(stride)
    case EnumRange(_, members) => TypeWord(StrType) + [' '] + IntItem(|members|) + PrintMany(PrintStr, members)
    case NoRange(_) => []
  }

  function PrintRange(r: Range): string {
    RangeTag() + [' '] + PrintStr(r.name) + PrintBounds(r)
  }

  function PrintSignature(sig: Signature): string {
    SigTag() + [' '] + PrintStr(sig.name) + IntItem(|sig.ranges|) + PrintMany(PrintRange, sig.ranges)
  }

  function PrintPair(pair: (string, Str)): string {
    PrintStr(Chars(pair.0)) + PrintStr(pair.1)
  }

  /** The entries of the hash, with their values as char pointers. */
  function Pairs(list: seq<(string, string)>): (r: seq<(string, Str)>)
    ensures |r| == |list| && forall i :: 0 <= i < |r| ==> r[i] == (list[i].0, Chars(list[i].1))
  {
    if list == [] then [] else [(list[0].0, Chars(list[0].1))] + Pairs(list[1..])
  }

  function PrintCfg(t: Table): string {
    CfgTag() + IntItem(t.count) + IntItem(t.logsize) + PrintMany(PrintPair, Pairs(Listing(t.slots)))
  }

  function PrintSession(s: Session): string {
    SessionTag() + [' '] + PrintSignature(s.sig) + PrintCfg(s.cfg)
  }

  function PrintData(data: Data): string {
    match data
    case NoData => []
    case SessionData(s) => PrintSession(s)
    case JoinData(sig) => PrintSignature(sig)
    case PointData(p) => PrintPoint(p)
    case ReportData(candidate, perf) => IntItem(candidate) + PrintPerf(perf)
    case StringData(s) => PrintStr(s)
  }

  /** Everything behind the header. */
  function PrintBody(m: Mesg): string {
    [':'] + PrintInt(m.dest) + [':'] + KindWord(m.kind) + [':'] + StatusWord(m.status) + [':'] +
    PrintStr(m.srcId) + PrintData(m.data)
  }

  // ---- Reading -----------------------------------------------------------

  function ScanTag(s: string, tag: string): Parsed<()> {
    ScanLiteral(SkipSpace(s), tag)
  }

  function ScanCount(s: string): Parsed<nat> {
    match ScanInt(s)
    case Bad => Bad
    case Good(n, t) => if n < 0 then Bad else Good(n, t)
  }

  function ScanType(s: string): Parsed<ValType> {
    match ScanWord(s, 3)
    case Bad => Bad
    case Good(word, t) => if TypeOf(word).None? then Bad else Good(TypeOf(word).value, t)
  }

  function ScanTyped(type_: ValType, s: string): Parsed<Val> {
    match type_
    case IntType =>
      (match ScanInt(s)
       case Bad => Bad
       case Good(i, t) => Good(IntVal(i), t))
    case RealType =>
      (match ScanToken(s)
       case Bad => Bad
       case Good(r, t) => Good(RealVal(r), t))
    case StrType =>
      (match ScanStr(s)
       case Bad => Bad
       case Good(x, t) => Good(StrVal(x), t))
  }

  function ScanVal(s: string): Parsed<Val> {
    match ScanTag(s, ValTag())
    case Bad => Bad
    case Good(_, t) =>
      match ScanType(t)
      case Bad => Bad
      case Good(type_, u) => ScanTyped(type_, u)
  }

  function ScanVals(id: int, s: string): Parsed<Point> {
    match ScanCount(s)
    case Bad => Bad
    case Good(n, t) =>
      match ScanMany(ScanVal, n, t)
      case Bad => Bad
      case Good(vals, u) => Good(Point(id, vals), u)
  }

  function ScanPoint(s: string): Parsed<Point> {
    match ScanTag(s, PointTag())
    case Bad => Bad
    case Good(_, t) =>
      match ScanInt(t)
      case Bad => Bad
      case Good(id, u) => if id >= 0 then ScanVals(id, u) else Good(Point(id, []), u)
  }

  function ScanPerf(s: string): Parsed<seq<string>> {
    match ScanTag(s, PerfTag())
    case Bad => Bad
    case Good(_, t) =>
      match ScanCount(t)
      case Bad => Bad
      case Good(n, u) => ScanMany(ScanToken, n, u)
  }

  /** A string that is copied with stralloc, which has nothing to give for null. */
  function ScanName(s: string): Parsed<Str> {
    match ScanStr(s)
    case Bad => Bad
    case Good(name, t) => if name.Null? then Bad else Good(name, t)
  }

  function ScanBounds(name: Str, type_: ValType, s: string): Parsed<Range> {
    match type_
    case IntType =>
      (match ScanInt(s)
       case Bad => Bad
       case Good(min, t) =>
         match ScanInt(t)
         case Bad => Bad
         case Good(max, u) =>
           match ScanInt(u)
           case Bad => Bad
           case Good(step, v) => Good(IntRange(name, min, max, step), v))
    case RealType =>
      (match ScanToken(s)
       case Bad => Bad
       case Good(low, t) =>
         match ScanToken(t)
         case Bad => Bad
         case Good(high, u) =>
           match ScanToken(u)
           case Bad => Bad
           case Good(stride, v) => Good(RealRange(name, low, high, stride), v))
    case StrType =>
      match ScanCount(s)
      case Bad => Bad
      case Good(n, t) =>
        match ScanMany(ScanName, n, t)
        case Bad => Bad
        case Good(members, u) => Good(EnumRange(name, members), u)
  }

  function ScanRange(s: string): Parsed<Range> {
    match ScanTag(s, RangeTag())
    case Bad => Bad
    case Good(_, t) =>
      match ScanName(t)
      case Bad => Bad
      case Good(name, u) =>
        match ScanType(u)
        case Bad => Bad
        case Good(type_, v) => ScanBounds(name, type_, v)
  }

  function ScanSignature(s: string): Parsed<Signature> {
    match ScanTag(s, SigTag())
    case Bad => Bad
    case Good(_, t) =>
      match ScanName(t)
      case Bad => Bad
      case Good(name, u) =>
        match ScanCount(u)
        case Bad => Bad
        case Good(n, v) =>
          match ScanMany(ScanRange, n, v)
          case Bad => Bad
          case Good(ranges, w) => Good(Signature(name, ranges), w)
  }

  function ScanPair(s: string): Parsed<(string, Str)> {
    match ScanStr(s)
    case Bad => Bad
    case Good(key, t) =>
      if key.Null? then Bad
      else match ScanStr(t)
        case Bad => Bad
        case Good(val, u) => Good((key.s, val), u)
  }

  /** hcfg_set for each pair in turn: a null value takes the key out. */
  function SetPairs(t: Table, list: seq<(string, Str)>): (Table, bool)
    requires Sized(t)
    decreases |list|
  {
    if list == [] then (t, true)
    else
      var (u, ok) := match list[0].1 case Null => Delete(t, list[0].0) case Chars(v) => Insert(t, list[0].0, v);
      if ok && Sized(u) then SetPairs(u, list[1..]) else (u, false)
  }

  /** The pairs, set into a newly allocated configuration of the size announced. */
  function ScanEntries(count: nat, logsize: nat, s: string): Parsed<Table> {
    match ScanMany(ScanPair, count, s)
    case Bad => Bad
    case Good(list, t) =>
      var empty := Resize(NewTable(), logsize);
      if Sized(empty) && SetPairs(empty, list).1 then Good(SetPairs(empty, list).0, t) else Bad
  }

  /** hcfg_deserialize. */
  function ScanCfg(s: string): Parsed<Table> {
    match ScanTag(s, CfgTag())
    case Bad => Bad
    case Good(_, t) =>
      match ScanInt(t)
      case Bad => Bad
      case Good(count, u) =>
        match ScanInt(u)
        case Bad => Bad
        case Good(logsize, v) => ScanEntries(Unsigned(count), Unsigned(logsize), v)
  }

  function ScanSession(s: string): Parsed<Session> {
    match ScanTag(s, SessionTag())
    case Bad => Bad
    case Good(_, t) =>
      match ScanSignature(t)
      case Bad => Bad
      case Good(sig, u) =>
        match ScanCfg(u)
        case Bad => Bad
        case Good(cfg, v) => Good(Session(sig, cfg), v)
  }

  function ScanReport(s: string): Parsed<Data> {
    match ScanInt(s)
    case Bad => Bad
    case Good(candidate, t) =>
      match ScanPerf(t)
      case Bad => Bad
      case Good(perf, u) => Good(ReportData(candidate, perf), u)
  }

  function ScanData(payload: Payload, s: string): Parsed<Data> {
    match payload
    case NoPayload => Good(NoData, s)
    case SessionPayload =>
      (match ScanSession(s)
       case Bad => Bad
       case Good(x, t) => Good(SessionData(x), t))
    case JoinPayload =>
      (match ScanSignature(s)
       case Bad => Bad
       case Good(x, t) => Good(JoinData(x), t))
    case PointPayload =>
      (match ScanPoint(s)
       case Bad => Bad
       case Good(x, t) => Good(PointData(x), t))
    case ReportPayload => ScanReport(s)
    case StringPayload =>
      (match ScanStr(s)
       case Bad => Bad
       case Good(x, t) => Good(StringData(x), t))
    case Refused => Bad
  }

  datatype Front = Front(dest: int, kindWord: string, statusWord: string)

  /** " :%d:%3s:%3s:" */
  function ScanFront(s: string): Parsed<Front> {
    match ScanTag(s, [':'])
    case Bad => Bad
    case Good(_, t) =>
      match ScanInt(t)
      case Bad => Bad
      case Good(dest, u) =>
        match ScanLiteral(u, [':'])
        case Bad => Bad
        case Good(_, v) =>
          match ScanWord(v, 3)
          case Bad => Bad
          case Good(kind, w) => ScanFrontEnd(dest, kind, w)
  }

  function ScanFrontEnd(dest: int, kind: string, s: string): Parsed<Front> {
    match ScanLiteral(s, [':'])
    case Bad => Bad
    case Good(_, t) =>
      match ScanWord(t, 3)
      case Bad => Bad
      case Good(status, u) =>
        match ScanLiteral(u, [':'])
        case Bad => Bad
        case Good(_, v) => Good(Front(dest, kind, status), v)
  }

  function ScanCarried(dest: int, kind: Kind, status: Status, srcId: Str, s: string): Parsed<Mesg> {
    match ScanData(PayloadOf(kind, status), s)
    case Bad => Bad
    case Good(data, t) => Good(Mesg(dest, kind, status, srcId, data), t)
  }

  /** hmesg_deserialize, behind the header. */
  function ScanBody(s: string): Parsed<Mesg> {
    match ScanFront(s)
    case Bad => Bad
    case Good(front, t) =>
      match ScanStr(t)
      case Bad => Bad
      case Good(srcId, u) =>
        var kind, status := KindOf(front.kindWord), StatusOf(front.statusWord);
        if kind.None? || status.None? then Bad else ScanCarried(front.dest, kind.value, status.value, srcId, u)
  }
}
