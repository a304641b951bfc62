/** Reading a message in place: the parsers move a position through the buffer and
    end every string they hand out by overwriting the quote behind it. */
module Reader {
  import opened Text
  import opened HashTable
  import opened HashMapping
  import opened Hcfg
  import opened Wire
  import opened Header

  predicate IsSuffix(r: string, s: string) {
    |r| <= |s| && r == s[|s| - |r|..]
  }

  lemma SuffixTwice(a: string, b: string, c: string)
    requires IsSuffix(a, b) && IsSuffix(b, c)
    ensures IsSuffix(a, c)
  {}

  lemma SignedSuffix(u: string, negative: bool)
    ensures Signed(u, negative).Good? ==> IsSuffix(Signed(u, negative).rest, u)
  {}

  /** What is left behind a scanned item is the end of what was there. */
  lemma IntSuffix(s: string)
    ensures ScanInt(s).Good? ==> IsSuffix(ScanInt(s).rest, s)
  {
    var t := SkipSpace(s);
    hide Signed, SkipSpace;
    SignedSuffix(t, false);
    if t != [] {
      SignedSuffix(t[1..], true);
      SignedSuffix(t[1..], false);
    }
    assert t != [] ==> IsSuffix(t[1..], t);
  }

  lemma WordAtSuffix(t: string, width: nat)
    ensures WordAt(t, width).Good? ==> IsSuffix(WordAt(t, width).rest, t)
  {}

  lemma WordSuffix(s: string, width: nat)
    ensures ScanWord(s, width).Good? ==> IsSuffix(ScanWord(s, width).rest, s)
  {
    hide WordAt, SkipSpace;
    var t := SkipSpace(s);
    WordAtSuffix(t, width);
    if WordAt(t, width).Good? {
      SuffixTwice(WordAt(t, width).rest, t, s);
    }
  }

  lemma TokenSuffix(s: string)
    ensures ScanToken(s).Good? ==> IsSuffix(ScanToken(s).rest, s)
  {
    WordSuffix(s, |SkipSpace(s)|);
  }

  lemma LiteralSuffix(s: string, lit: string)
    ensures ScanLiteral(s, lit).Good? ==> IsSuffix(ScanLiteral(s, lit).rest, s)
  {}

  lemma TagSuffix(s: string, tag: string)
    ensures ScanTag(s, tag).Good? ==> IsSuffix(ScanTag(s, tag).rest, s)
  {}

  // ---- Lists read one by one -----------------------------------------------

  function Behind<T>(list: seq<T>, more: Parsed<seq<T>>): Parsed<seq<T>> {
    match more
    case Bad => Bad
    case Good(l, t) => Good(list + l, t)
  }

  lemma BehindNothing<T>(more: Parsed<seq<T>>)
    ensures Behind([], more) == more
  {
    if more.Good? {
      assert [] + more.value == more.value;
    }
  }

  lemma ManyStep<T>(scan: string -> Parsed<T>, n: nat, s: string, list: seq<T>)
    requires n > 0
    ensures Behind(list, ScanMany(scan, n, s)) ==
            match scan(s) case Bad => Bad case Good(v, t) => Behind(list + [v], ScanMany(scan, n - 1, t))
  {
    match scan(s)
    case Bad =>
    case Good(v, t) =>
      var more := ScanMany(scan, n - 1, t);
      if more.Good? {
        assert list + ([v] + more.value) == list + [v] + more.value;
      }
  }

  lemma ManyDone<T>(scan: string -> Parsed<T>, s: string, list: seq<T>)
    ensures Behind(list, ScanMany(scan, 0, s)) == Good(list, s)
  {
    assert list + [] == list;
  }

  /** Setting the pairs still to come. */
  function SetRest(t: Table, more: Parsed<seq<(string, Str)>>): Parsed<Table> {
    match more
    case Bad => Bad
    case Good(list, s) => if Sized(t) && SetPairs(t, list).1 then Good(SetPairs(t, list).0, s) else Bad
  }

  lemma SetStep(t: Table, n: nat, s: string)
    requires n > 0 && Sized(t)
    ensures SetRest(t, ScanMany(ScanPair, n, s)) ==
            match ScanPair(s)
            case Bad => Bad
            case Good(pair, u) =>
              var (w, ok) := match pair.1 case Null => Delete(t, pair.0) case Chars(v) => Insert(t, pair.0, v);
              if ok then SetRest(w, ScanMany(ScanPair, n - 1, u)) else Bad
  {
    hide Insert, Delete, ScanPair, Sized;
    match ScanPair(s)
    case Bad =>
    case Good(pair, u) =>
      var more := ScanMany(ScanPair, n - 1, u);
      if more.Good? {
        var list := [pair] + more.value;
        assert list[0] == pair && list[1..] == more.value;
      }
  }

  // ---- Strings handed out --------------------------------------------------

  /** A terminated string in the buffer. */
  ghost predicate IsCString(buf: array<char>, ptr: nat, s: string)
    reads buf
  {
    ptr + |s| < buf.Length && buf[ptr..ptr + |s|] == s && buf[ptr + |s|] == '\0'
  }

  /** The string is among those pointed to. */
  ghost predicate StrHeld(s: Str, handed: seq<(nat, string)>) {
    s.Chars? ==> exists h :: h in handed && h.1 == s.s
  }

  ghost predicate ValHeld(v: Val, handed: seq<(nat, string)>) {
    v.StrVal? ==> StrHeld(v.str, handed)
  }

  ghost predicate DataHeld(data: Data, handed: seq<(nat, string)>) {
    match data
    case StringData(s) => StrHeld(s, handed)
    case PointData(p) => forall v :: v in p.vals ==> ValHeld(v, handed)
    case NoData | SessionData(_) | JoinData(_) | ReportData(_, _) => true
  }

  /** So are all strings that the message itself points to; names and configuration
      entries are copies. */
  ghost predicate MesgHeld(m: Mesg, handed: seq<(nat, string)>) {
    StrHeld(m.srcId, handed) && DataHeld(m.data, handed)
  }

  /** A position in a message's buffer; the text ends where its terminator is. */
  class Reader {
    const buf: array<char>
    const end: nat
    var pos: nat

    /** The pointers handed out so far, with the strings they are to. */
    ghost var handed: seq<(nat, string)>

    ghost predicate Valid()
      reads this, buf
    {
      pos <= end <= buf.Length && Intact()
    }

    /** Every one of them still is to its string, and reading goes on behind it. */
    ghost predicate Intact()
      reads this, buf
    {
      forall h :: h in handed ==> h.0 + |h.1| < pos && IsCString(buf, h.0, h.1)
    }

    /** What is still to be read. */
    ghost function Rest(): string
      requires Valid()
      reads this, buf
    {
      buf[pos..end]
    }

    /** A result agrees with what scanning the text gives. */
    ghost predicate Matches<T>(r: Option<T>, expected: Parsed<T>)
      requires Valid()
      reads this, buf
    {
      match expected
      case Bad => r.None?
      case Good(v, rest) => r == Some(v) && Rest() == rest
    }

    constructor (buf: array<char>, pos: nat, end: nat)
      requires pos <= end <= buf.Length
      ensures Valid() && this.buf == buf && this.end == end && this.pos == pos && handed == []
    {
      this.buf, this.end, this.pos, handed := buf, end, pos, [];
    }

    /** Go on behind what was scanned. */
    method Advance(rest: string)
      requires Valid() && IsSuffix(rest, Rest())
      modifies this`pos
      ensures Valid() && Rest() == rest && old(pos) <= pos
    {
      pos := end - |rest|;
    }

    method ReadInt() returns (r: Option<int>)
      requires Valid()
      modifies this`pos
      ensures Valid() && old(pos) <= pos && Matches(r, ScanInt(old(Rest())))
    {
      IntSuffix(Rest());
      match ScanInt(buf[pos..end]) {
        case Bad => r := None;
        case Good(n, rest) => Advance(rest); r := Some(n);
      }
    }

    method ReadCount() returns (r: Option<nat>)
      requires Valid()
      modifies this`pos
      ensures Valid() && old(pos) <= pos && Matches(r, ScanCount(old(Rest())))
    {
      hide ScanInt;
      var n := ReadInt();
      r := if n.None? || n.value < 0 then None else Some(n.value);
    }

    method ReadToken() returns (r: Option<string>)
      requires Valid()
      modifies this`pos
      ensures Valid() && old(pos) <= pos && Matches(r, ScanToken(old(Rest())))
    {
      TokenSuffix(Rest());
      hide ScanToken;
      match ScanToken(buf[pos..end]) {
        case Bad => r := None;
        case Good(t, rest) => Advance(rest); r := Some(t);
      }
    }

    method ReadType() returns (r: Option<ValType>)
      requires Valid()
      modifies this`pos
      ensures Valid() && old(pos) <= pos && Matches(r, ScanType(old(Rest())))
    {
      WordSuffix(Rest(), 3);
      hide ScanWord, TypeOf;
      match ScanWord(buf[pos..end], 3) {
        case Bad => r := None;
        case Good(word, rest) => Advance(rest); r := TypeOf(word);
      }
    }

    method ReadTag(tag: string) returns (r: Option<()>)
      requires Valid()
      modifies this`pos
      ensures Valid() && old(pos) <= pos && Matches(r, ScanTag(old(Rest()), tag))
    {
      TagSuffix(Rest(), tag);
      hide ScanTag;
      match ScanTag(buf[pos..end], tag) {
        case Bad => r := None;
        case Good(_, rest) => Advance(rest); r := Some(());
      }
    }

    /** scanstr_serial: the string is not copied; the quote behind it becomes its
        terminator.  Nothing in front of the position is touched, so strings handed
        out before stay as they are. */
    method ReadStr() returns (r: Option<Str>, ptr: nat)
      requires Valid()
      modifies this`pos, this`handed, buf
      ensures Valid() && old(pos) <= pos
      ensures forall k :: 0 <= k < old(pos) ==> buf[k] == old(buf[k])
      ensures forall h :: h in old(handed) ==> h in handed
      ensures Matches(r, ScanStr(old(Rest())))
      ensures r.Some? && r.value.Chars? ==> old(pos) <= ptr && (ptr, r.value.s) in handed
    {
      hide ScanInt, CharsAt;
      r, ptr := None, 0;
      var n := ReadLength();
      if n.Some? {
        r, ptr := ReadChars(n.value);
      }
    }

    /** "%u\"": the length and the opening quote. */
    method ReadLength() returns (r: Option<nat>)
      requires Valid()
      modifies this`pos
      ensures Valid() && old(pos) <= pos
      ensures match ScanInt(old(Rest()))
              case Bad => r.None?
              case Good(n, t) => if t != [] && t[0] == '"' then r == Some(Unsigned(n)) && Rest() == t[1..] else r.None?
    {
      hide ScanInt, Unsigned;
      r := None;
      var n := ReadInt();
      if n.None? || pos == end || buf[pos] != '"' {
        return;
      }
      ghost var t := Rest();
      pos := pos + 1;
      assert Rest() == t[1..];
      r := Some(Unsigned(n.value));
    }

    /** The characters behind the opening quote. */
    method ReadChars(len: nat) returns (r: Option<Str>, ptr: nat)
      requires Valid()
      modifies this`pos, this`handed, buf
      ensures Valid() && old(pos) <= pos
      ensures forall k :: 0 <= k < old(pos) ==> buf[k] == old(buf[k])
      ensures forall h :: h in old(handed) ==> h in handed
      ensures Matches(r, CharsAt(old(Rest()), len))
      ensures r.Some? && r.value.Chars? ==> old(pos) <= ptr && (ptr, r.value.s) in handed
    {
      ghost var was := Rest();
      r, ptr := None, 0;
      var strlen := end - pos;
      if len == 0 && 2 <= strlen && buf[pos] == '0' {
        pos := pos + 2;
        r := Some(Null);
        assert Rest() == was[2..];
      } else if len < strlen && buf[pos + len] == '"' {
        ptr := pos;
        r := Some(Chars(buf[pos..pos + len]));
        assert buf[pos..pos + len] == was[..len];
        buf[pos + len] := '\0';
        pos := pos + len + 1;
        Extend(ptr, was[..len], old(pos));
        assert buf[pos..end] == was[len + 1..];
      }
    }

    /** One more string, behind those handed out before. */
    ghost method Extend(ptr: nat, s: string, was: nat)
      requires pos <= end <= buf.Length && was <= ptr && ptr + |s| < pos && IsCString(buf, ptr, s)
      requires forall h :: h in handed ==> h.0 + |h.1| < was && IsCString(buf, h.0, h.1)
      modifies this`handed
      ensures Valid() && handed == old(handed) + [(ptr, s)]
    {
      handed := handed + [(ptr, s)];
    }

    /** hval_deserialize. */
    method ReadVal() returns (r: Option<Val>)
      requires Valid()
      modifies this`pos, this`handed, buf
      ensures Valid() && old(pos) <= pos
      ensures forall k :: 0 <= k < old(pos) ==> buf[k] == old(buf[k])
      ensures forall h :: h in old(handed) ==> h in handed
      ensures Matches(r, ScanVal(old(Rest())))
      ensures r.Some? ==> ValHeld(r.value, handed)
    {
      hide ScanTag, ScanType, ScanInt, ScanToken, ScanStr, ValTag;
      r := None;
      var tag := ReadTag(ValTag());
      if tag.None? {
        return;
      }
      var type_ := ReadType();
      if type_.None? {
        return;
      }
      match type_.value {
        case IntType =>
          var i := ReadInt();
          r := if i.None? then None else Some(IntVal(i.value));
        case RealType =>
          var t := ReadToken();
          r := if t.None? then None else Some(RealVal(t.value));
        case StrType =>
          var s, _ := ReadStr();
          r := if s.None? then None else Some(StrVal(s.value));
      }
    }

    /** hpoint_deserialize. */
    method ReadPoint() returns (r: Option<Point>)
      requires Valid()
      modifies this`pos, this`handed, buf
      ensures Valid() && old(pos) <= pos
      ensures forall k :: 0 <= k < old(pos) ==> buf[k] == old(buf[k])
      ensures forall h :: h in old(handed) ==> h in handed
      ensures Matches(r, ScanPoint(old(Rest())))
      ensures r.Some? ==> forall v :: v in r.value.vals ==> ValHeld(v, handed)
    {
      hide ScanTag, ScanInt, ScanVals, PointTag;
      r := None;
      var tag := ReadTag(PointTag());
      if tag.None? {
        return;
      }
      var id := ReadInt();
      if id.None? {
        return;
      }
      if id.value >= 0 {
        r := ReadVals(id.value);
      } else {
        r := Some(Point(id.value, []));
      }
    }

    /** Its loop over the values. */
    method ReadVals(id: int) returns (r: Option<Point>)
      requires Valid()
      modifies this`pos, this`handed, buf
      ensures Valid() && old(pos) <= pos
      ensures forall k :: 0 <= k < old(pos) ==> buf[k] == old(buf[k])
      ensures forall h :: h in old(handed) ==> h in handed
      ensures Matches(r, ScanVals(id, old(Rest())))
      ensures r.Some? ==> forall v :: v in r.value.vals ==> ValHeld(v, handed)
    {
      hide ScanCount, ScanMany, ScanVal;
      r := None;
      var n := ReadCount();
      if n.None? {
        return;
      }
      ghost var whole := ScanMany(ScanVal, n.value, Rest());
      var vals := [];
      var i := 0;
      BehindNothing(whole);
      while i < n.value
        invariant 0 <= i <= n.value && Valid() && old(pos) <= pos
        invariant forall k :: 0 <= k < old(pos) ==> buf[k] == old(buf[k])
        invariant forall h :: h in old(handed) ==> h in handed
        invariant whole == Behind(vals, ScanMany(ScanVal, n.value - i, Rest()))
        invariant forall v :: v in vals ==> ValHeld(v, handed)
      {
        ManyStep(ScanVal, n.value - i, Rest(), vals);
        var v := ReadVal();
        if v.None? {
          return;
        }
        vals := vals + [v.value];
        i := i + 1;
      }
      ManyDone(ScanVal, Rest(), vals);
      r := Some(Point(id, vals));
    }

    /** hperf_deserialize. */
    method ReadPerf() returns (r: Option<seq<string>>)
      requires Valid()
      modifies this`pos
      ensures Valid() && old(pos) <= pos && Matches(r, ScanPerf(old(Rest())))
    {
      hide ScanTag, ScanCount, ScanMany, ScanToken, PerfTag;
      r := None;
      var tag := ReadTag(PerfTag());
      if tag.None? {
        return;
      }
      var n := ReadCount();
      if n.None? {
        return;
      }
      ghost var whole := ScanMany(ScanToken, n.value, Rest());
      var perf := [];
      var i := 0;
      BehindNothing(whole);
      while i < n.value
        invariant 0 <= i <= n.value && Valid() && old(pos) <= pos
        invariant whole == Behind(perf, ScanMany(ScanToken, n.value - i, Rest()))
      {
        ManyStep(ScanToken, n.value - i, Rest(), perf);
        var t := ReadToken();
        if t.None? {
          return;
        }
        perf := perf + [t.value];
        i := i + 1;
      }
      ManyDone(ScanToken, Rest(), perf);
      r := Some(perf);
    }

    /** A string that is then copied. */
    method ReadName() returns (r: Option<Str>)
      requires Valid()
      modifies this`pos, this`handed, buf
      ensures Valid() && old(pos) <= pos
      ensures forall k :: 0 <= k < old(pos) ==> buf[k] == old(buf[k])
      ensures forall h :: h in old(handed) ==> h in handed
      ensures Matches(r, ScanName(old(Rest())))
    {
      hide ScanStr;
      var s, _ := ReadStr();
      r := if s.None? || s.value.Null? then None else s;
    }

    /** The loop over an enumeration's members. */
    method ReadMembers(n: nat) returns (r: Option<seq<Str>>)
      requires Valid()
      modifies this`pos, this`handed, buf
      ensures Valid() && old(pos) <= pos
      ensures forall k :: 0 <= k < old(pos) ==> buf[k] == old(buf[k])
      ensures forall h :: h in old(handed) ==> h in handed
      ensures Matches(r, ScanMany(ScanName, n, old(Rest())))
    {
      hide ScanMany, ScanName;
      r := None;
      ghost var whole := ScanMany(ScanName, n, Rest());
      var members := [];
      var i := 0;
      BehindNothing(whole);
      while i < n
        invariant 0 <= i <= n && Valid() && old(pos) <= pos
        invariant forall k :: 0 <= k < old(pos) ==> buf[k] == old(buf[k])
        invariant forall h :: h in old(handed) ==> h in handed
        invariant whole == Behind(members, ScanMany(ScanName, n - i, Rest()))
      {
        ManyStep(ScanName, n - i, Rest(), members);
        var s := ReadName();
        if s.None? {
          return;
        }
        members := members + [s.value];
        i := i + 1;
      }
      ManyDone(ScanName, Rest(), members);
      r := Some(members);
    }

    method ReadBounds(name: Str, type_: ValType) returns (r: Option<Range>)
      requires Valid()
      modifies this`pos, this`handed, buf
      ensures Valid() && old(pos) <= pos
      ensures forall k :: 0 <= k < old(pos) ==> buf[k] == old(buf[k])
      ensures forall h :: h in old(handed) ==> h in handed
      ensures Matches(r, ScanBounds(name, type_, old(Rest())))
    {
      hide ScanInt, ScanToken, ScanCount, ScanMany, ScanName;
      r := None;
      match type_ {
        case IntType =>
          var min := ReadInt();
          if min.None? { return; }
          var max := ReadInt();
          if max.None? { return; }
          var step := ReadInt();
          if step.None? { return; }
          r := Some(IntRange(name, min.value, max.value, step.value));
        case RealType =>
          var low := ReadToken();
          if low.None? { return; }
          var high := ReadToken();
          if high.None? { return; }
          var stride := ReadToken();
          if stride.None? { return; }
          r := Some(RealRange(name, low.value, high.value, stride.value));
        case StrType =>
          var n := ReadCount();
          if n.None? { return; }
          var members := ReadMembers(n.value);
          if members.None? { return; }
          r := Some(EnumRange(name, members.value));
      }
    }

    /** hrange_deserialize. */
    method ReadRange() returns (r: Option<Range>)
      requires Valid()
      modifies this`pos, this`handed, buf
      ensures Valid() && old(pos) <= pos
      ensures forall k :: 0 <= k < old(pos) ==> buf[k] == old(buf[k])
      ensures forall h :: h in old(handed) ==> h in handed
      ensures Matches(r, ScanRange(old(Rest())))
    {
      hide ScanTag, ScanName, ScanType, ScanBounds, RangeTag;
      r := None;
      var tag := ReadTag(RangeTag());
      if tag.None? { return; }
      var name := ReadName();
      if name.None? { return; }
      var type_ := ReadType();
      if type_.None? { return; }
      r := ReadBounds(name.value, type_.value);
    }

    /** hsignature_deserialize. */
    method ReadSignature() returns (r: Option<Signature>)
      requires Valid()
      modifies this`pos, this`handed, buf
      ensures Valid() && old(pos) <= pos
      ensures forall k :: 0 <= k < old(pos) ==> buf[k] == old(buf[k])
      ensures forall h :: h in old(handed) ==> h in handed
      ensures Matches(r, ScanSignature(old(Rest())))
    {
      hide ScanTag, ScanName, ScanCount, ScanMany, ScanRange, SigTag;
      r := None;
      var tag := ReadTag(SigTag());
      if tag.None? { return; }
      var name := ReadName();
      if name.None? { return; }
      var n := ReadCount();
      if n.None? { return; }
      var ranges := ReadRanges(n.value);
      if ranges.None? { return; }
      r := Some(Signature(name.value, ranges.value));
    }

    /** Its loop over the ranges. */
    method ReadRanges(n: nat) returns (r: Option<seq<Range>>)
      requires Valid()
      modifies this`pos, this`handed, buf
      ensures Valid() && old(pos) <= pos
      ensures forall k :: 0 <= k < old(pos) ==> buf[k] == old(buf[k])
      ensures forall h :: h in old(handed) ==> h in handed
      ensures Matches(r, ScanMany(ScanRange, n, old(Rest())))
    {
      hide ScanMany, ScanRange;
      r := None;
      ghost var whole := ScanMany(ScanRange, n, Rest());
      var ranges := [];
      var i := 0;
      BehindNothing(whole);
      while i < n
        invariant 0 <= i <= n && Valid() && old(pos) <= pos
        invariant forall k :: 0 <= k < old(pos) ==> buf[k] == old(buf[k])
        invariant forall h :: h in old(handed) ==> h in handed
        invariant whole == Behind(ranges, ScanMany(ScanRange, n - i, Rest()))
      {
        ManyStep(ScanRange, n - i, Rest(), ranges);
        var range := ReadRange();
        if range.None? { return; }
        ranges := ranges + [range.value];
        i := i + 1;
      }
      ManyDone(ScanRange, Rest(), ranges);
      r := Some(ranges);
    }

    method ReadPair() returns (r: Option<(string, Str)>)
      requires Valid()
      modifies this`pos, this`handed, buf
      ensures Valid() && old(pos) <= pos
      ensures forall k :: 0 <= k < old(pos) ==> buf[k] == old(buf[k])
      ensures forall h :: h in old(handed) ==> h in handed
      ensures Matches(r, ScanPair(old(Rest())))
    {
      hide ScanStr;
      r := None;
      var key, _ := ReadStr();
      if key.None? || key.value.Null? { return; }
      var val, _ := ReadStr();
      if val.None? { return; }
      r := Some((key.value.s, val.value));
    }

    /** The loop of hcfg_deserialize: every pair is set as soon as it is read. */
    method ReadEntries(cfg: Config, count: nat) returns (r: Option<Table>)
      requires Valid() && cfg.Valid()
      modifies this`pos, this`handed, buf, cfg, cfg.hash
      ensures Valid() && old(pos) <= pos
      ensures forall k :: 0 <= k < old(pos) ==> buf[k] == old(buf[k])
      ensures forall h :: h in old(handed) ==> h in handed
      ensures Matches(r, SetRest(old(cfg.Contents()), ScanMany(ScanPair, count, old(Rest()))))
    {
      hide ScanMany, ScanPair, SetPairs, Insert, Delete, Sized, NoGaps;
      r := None;
      ghost var whole := SetRest(cfg.Contents(), ScanMany(ScanPair, count, Rest()));
      var i := 0;
      while i < count
        invariant 0 <= i <= count && Valid() && old(pos) <= pos
        invariant forall k :: 0 <= k < old(pos) ==> buf[k] == old(buf[k])
        invariant forall h :: h in old(handed) ==> h in handed
        invariant cfg.Valid() && (cfg.hash == old(cfg.hash) || fresh(cfg.hash))
        invariant whole == SetRest(cfg.Contents(), ScanMany(ScanPair, count - i, Rest()))
      {
        SetStep(cfg.Contents(), count - i, Rest());
        var pair := ReadPair();
        if pair.None? { return; }
        var ok := cfg.Set(pair.value.0, match pair.value.1 case Null => None case Chars(v) => Some(v));
        if !ok { return; }
        i := i + 1;
      }
      AllSet(cfg.Contents(), Rest());
      r := Some(Table(cfg.hash[..], cfg.count, cfg.logsize));
    }

    static lemma AllSet(t: Table, s: string)
      requires Sized(t)
      ensures SetRest(t, ScanMany(ScanPair, 0, s)) == Good(t, s)
    {}

    /** hcfg_deserialize into a configuration just allocated. */
    method ReadCfg() returns (r: Option<Table>)
      requires Valid()
      modifies this`pos, this`handed, buf
      ensures Valid() && old(pos) <= pos
      ensures forall k :: 0 <= k < old(pos) ==> buf[k] == old(buf[k])
      ensures forall h :: h in old(handed) ==> h in handed
      ensures Matches(r, ScanCfg(old(Rest())))
    {
      hide ScanTag, ScanInt, ScanMany, ScanPair, SetPairs, Resize, NewTable, CfgTag, Sized;
      r := None;
      var tag := ReadTag(CfgTag());
      if tag.None? { return; }
      var count := ReadInt();
      if count.None? { return; }
      var logsize := ReadInt();
      if logsize.None? { return; }
      var cfg := new Config();
      NewIsEmpty();
      cfg.HashResize(Unsigned(logsize.value));
      r := ReadEntries(cfg, Unsigned(count.value));
    }

    static lemma NewIsEmpty()
      ensures Entries(NewTable().slots) == 0
    {
      NoEntries(NewTable().slots);
    }

    /** hsession_deserialize. */
    method ReadSession() returns (r: Option<Session>)
      requires Valid()
      modifies this`pos, this`handed, buf
      ensures Valid() && old(pos) <= pos
      ensures forall k :: 0 <= k < old(pos) ==> buf[k] == old(buf[k])
      ensures forall h :: h in old(handed) ==> h in handed
      ensures Matches(r, ScanSession(old(Rest())))
    {
      hide ScanTag, ScanSignature, ScanCfg, SessionTag;
      r := None;
      var tag := ReadTag(SessionTag());
      if tag.None? { return; }
      var sig := ReadSignature();
      if sig.None? { return; }
      var cfg := ReadCfg();
      if cfg.None? { return; }
      r := Some(Session(sig.value, cfg.value));
    }

    method ReadData(payload: Payload) returns (r: Option<Data>)
      requires Valid()
      modifies this`pos, this`handed, buf
      ensures Valid() && old(pos) <= pos
      ensures forall k :: 0 <= k < old(pos) ==> buf[k] == old(buf[k])
      ensures forall h :: h in old(handed) ==> h in handed
      ensures Matches(r, ScanData(payload, old(Rest())))
      ensures r.Some? ==> DataHeld(r.value, handed)
    {
      hide ScanSession, ScanSignature, ScanPoint, ScanInt, ScanPerf, ScanStr;
      r := None;
      match payload {
        case NoPayload =>
          r := Some(NoData);
        case SessionPayload =>
          var s := ReadSession();
          r := if s.None? then None else Some(SessionData(s.value));
        case JoinPayload =>
          var sig := ReadSignature();
          r := if sig.None? then None else Some(JoinData(sig.value));
        case PointPayload =>
          var p := ReadPoint();
          r := if p.None? then None else Some(PointData(p.value));
        case ReportPayload =>
          var candidate := ReadInt();
          if candidate.None? { return; }
          var perf := ReadPerf();
          r := if perf.None? then None else Some(ReportData(candidate.value, perf.value));
        case StringPayload =>
          var s, _ := ReadStr();
          r := if s.None? then None else Some(StringData(s.value));
        case Refused =>
      }
    }

    /** The one sscanf for destination, type and status. */
    method ReadFront() returns (r: Option<Front>)
      requires Valid()
      modifies this`pos
      ensures Valid() && old(pos) <= pos && Matches(r, ScanFront(old(Rest())))
    {
      FrontSuffix(Rest());
      hide ScanFront;
      match ScanFront(buf[pos..end]) {
        case Bad => r := None;
        case Good(front, rest) => Advance(rest); r := Some(front);
      }
    }

    /** hmesg_deserialize, behind the header. */
    method ReadBody() returns (r: Option<Mesg>)
      requires Valid()
      modifies this`pos, this`handed, buf
      ensures Valid() && old(pos) <= pos
      ensures forall k :: 0 <= k < old(pos) ==> buf[k] == old(buf[k])
      ensures forall h :: h in old(handed) ==> h in handed
      ensures Matches(r, ScanBody(old(Rest())))
      ensures r.Some? ==> MesgHeld(r.value, handed)
    {
      hide ScanFront, ScanStr, ScanData, KindOf, StatusOf, PayloadOf;
      r := None;
      var front := ReadFront();
      if front.None? { return; }
      var srcId, _ := ReadStr();
      if srcId.None? { return; }
      var kind, status := KindOf(front.value.kindWord), StatusOf(front.value.statusWord);
      if kind.None? || status.None? { return; }
      var data := ReadData(PayloadOf(kind.value, status.value));
      if data.None? { return; }
      r := Some(Mesg(front.value.dest, kind.value, status.value, srcId.value, data.value));
    }
  }

  lemma FrontEndSuffix(dest: int, kind: string, s: string)
    ensures ScanFrontEnd(dest, kind, s).Good? ==> IsSuffix(ScanFrontEnd(dest, kind, s).rest, s)
  {
    hide ScanLiteral, ScanWord, IsSuffix;
    if ScanFrontEnd(dest, kind, s).Good? {
      var t := ScanLiteral(s, [':']).rest;
      var u := ScanWord(t, 3).rest;
      LiteralSuffix(s, [':']);
      WordSuffix(t, 3);
      LiteralSuffix(u, [':']);
      SuffixTwice(u, t, s);
      SuffixTwice(ScanLiteral(u, [':']).rest, u, s);
    }
  }

  lemma FrontSuffix(s: string)
    ensures ScanFront(s).Good? ==> IsSuffix(ScanFront(s).rest, s)
  {
    hide ScanTag, ScanInt, ScanLiteral, ScanWord, ScanFrontEnd, IsSuffix;
    if ScanFront(s).Good? {
      var t := ScanTag(s, [':']).rest;
      var u := ScanInt(t).rest;
      var v := ScanLiteral(u, [':']).rest;
      var w := ScanWord(v, 3).rest;
      TagSuffix(s, [':']);
      IntSuffix(t);
      LiteralSuffix(u, [':']);
      WordSuffix(v, 3);
      FrontEndSuffix(ScanInt(t).value, ScanWord(v, 3).value, w);
      SuffixTwice(u, t, s);
      SuffixTwice(v, u, s);
      SuffixTwice(w, v, s);
      SuffixTwice(ScanFront(s).rest, w, s);
    }
  }

  /** hmesg_deserialize: check the header, then read behind it in place.  At the end
      every pointer handed out is to its terminated string, and the strings the
      message points to are among them. */
  method DeserializeInPlace(buf: array<char>, len: nat) returns (r: Option<Mesg>, ghost handed: seq<(nat, string)>)
    requires len <= buf.Length
    modifies buf
    ensures r == Deserialize(old(buf[..len]))
    ensures forall h :: h in handed ==> IsCString(buf, h.0, h.1)
    ensures r.Some? ==> MesgHeld(r.value, handed)
  {
    hide ReadHeader, ScanBody, MesgHeld, IsCString;
    handed := [];
    if len < HDRLEN || ReadHeader(buf[..len]).None? {
      return None, handed;
    }
    var reader := new Reader(buf, HDRLEN, len);
    assert reader.Rest() == buf[..len][HDRLEN..];
    r := reader.ReadBody();
    handed := reader.handed;
  }
}
