/** Laying a message out in its buffer: every write advances a cursor, and once
    the room is used up only the lengths are still added; the message is then laid
    out again in a buffer that is large enough. */
module Writer {
  import opened Numbers
  import opened Text
  import opened HashTable
  import opened HashMapping
  import opened Wire
  import opened RoundTrip
  import opened Header

  // ---- What can be written ------------------------------------------------

  predicate PointPrintable(p: Point) {
    p.id >= 0 ==> forall v :: v in p.vals ==> !v.NoVal?
  }

  predicate SignaturePrintable(sig: Signature) {
    forall r :: r in sig.ranges ==> !r.NoRange?
  }

  /** Every type tag in the data is a known one. */
  predicate DataPrintable(data: Data) {
    match data
    case SessionData(s) => SignaturePrintable(s.sig)
    case JoinData(sig) => SignaturePrintable(sig)
    case PointData(p) => PointPrintable(p)
    case NoData | ReportData(_, _) | StringData(_) => true
  }

  predicate MesgPrintable(m: Mesg) {
    PayloadOf(m.kind, m.status) != Refused && DataPrintable(m.data)
  }

  /** What can be sent can be written. */
  lemma SendableIsPrintable(m: Mesg)
    requires MesgSendable(m)
    ensures MesgPrintable(m)
  {}

  /** The cursor a message is laid out with. */
  class Cursor {
    const buf: array<char>
    ghost const base: nat
    ghost const room: nat
    var pos: nat
    var left: nat
    ghost var written: string

    /** The room left is what the text so far has not used; as long as there is
        some, the cursor is behind the text.  All of the text is in the buffer,
        except that the last byte of the room never holds any of it. */
    ghost predicate Valid()
      reads this, buf
    {
      && left == (if |written| <= room then room - |written| else 0)
      && (|written| <= room ==> pos == base + |written|)
      && (room > 0 ==> base + room <= buf.Length && Laid(written))
    }

    ghost predicate Laid(text: string)
      requires room > 0 && base + room <= buf.Length
      reads this, buf
    {
      forall k :: 0 <= k < Min(|text|, room - 1) ==> buf[base + k] == text[k]
    }

    constructor (buf: array<char>, base: nat, room: nat)
      requires room > 0 ==> base + room <= buf.Length
      ensures Valid() && written == [] && this.buf == buf && this.base == base && this.room == room
    {
      this.buf, this.base, this.room := buf, base, room;
      pos, left, written := base, room, [];
    }

    /** vsnprintf: as much of the text as leaves one byte for the terminator, and
        the length of all of it. */
    method Format(text: string) returns (count: nat)
      requires Valid()
      modifies buf
      ensures count == |text|
      ensures left > 0 ==> var n := Min(|text|, left - 1);
                           && buf[pos..pos + n] == text[..n] && buf[..pos] == old(buf[..pos])
      ensures left == 0 ==> buf[..] == old(buf[..])
    {
      count := |text|;
      if left > 0 {
        var n := if |text| < left - 1 then |text| else left - 1;
        var k := 0;
        while k < n
          invariant 0 <= k <= n
          invariant buf[pos..pos + k] == text[..k] && buf[..pos] == old(buf[..pos])
        {
          buf[pos + k] := text[k];
          k := k + 1;
        }
        buf[pos + n] := '\0';
      }
    }

    /** snprintf_serial. */
    method Emit(text: string) returns (count: nat)
      requires Valid()
      modifies this`pos, this`left, this`written, buf
      ensures Valid() && written == old(written) + text && count == |text|
    {
      ghost var was := buf[..];
      ghost var at, had := pos, left;
      count := Format(text);
      if count > left {
        left := 0;
      } else {
        left := left - count;
        pos := pos + count;
      }
      ghost var before := written;
      written := written + text;
      if room > 0 {
        forall k | 0 <= k < Min(|written|, room - 1)
          ensures buf[base + k] == written[k]
        {
          if had == 0 {
            assert buf[..][base + k] == was[base + k];
          } else if k < |before| {
            assert buf[..at][base + k] == was[..at][base + k];
          } else {
            var n := Min(|text|, had - 1);
            assert buf[at..at + n][k - |before|] == text[..n][k - |before|];
          }
        }
      }
    }

    /** printstr_serial. */
    method EmitStr(str: Str) returns (count: nat)
      requires Valid()
      modifies this`pos, this`left, this`written, buf
      ensures Valid() && written == old(written) + PrintStr(str) && count == |PrintStr(str)|
    {
      match str {
        case Null => count := Emit("0\"0\" ");
        case Chars(s) => count := Emit(PrintNat(|s|) + ['"'] + s + "\" ");
      }
    }

    /** hval_serialize. */
    method EmitVal(v: Val) returns (total: int)
      requires Valid()
      modifies this`pos, this`left, this`written, buf
      ensures Valid()
      ensures v.NoVal? <==> total == -1
      ensures !v.NoVal? ==> written == old(written) + PrintVal(v) && total == |PrintVal(v)|
    {
      hide Valid, ValTag, TypeWord, IntItem, TokenItem, PrintStr;
      var count;
      match v {
        case IntVal(i) =>
          total := Emit(ValTag() + TypeWord(IntType) + [' ']);
          count := Emit(IntItem(i));
        case RealVal(t) =>
          total := Emit(ValTag() + TypeWord(RealType) + [' ']);
          count := Emit(TokenItem(t));
        case StrVal(s) =>
          total := Emit(ValTag() + TypeWord(StrType) + [' ']);
          count := EmitStr(s);
        case NoVal =>
          return -1;
      }
      total := total + count;
    }

    /** hpoint_serialize: no values unless the id is that of a candidate. */
    method EmitPoint(p: Point) returns (total: int)
      requires Valid()
      modifies this`pos, this`left, this`written, buf
      ensures Valid()
      ensures !PointPrintable(p) <==> total == -1
      ensures PointPrintable(p) ==> written == old(written) + PrintPoint(p) && total == |PrintPoint(p)|
    {
      hide Valid, PointTag, IntItem, PrintVal, PrintMany;
      ghost var start := written;
      total := Emit(PointTag() + IntItem(p.id));
      if p.id >= 0 {
        var count: int := Emit(IntItem(|p.vals|));
        total := total + count;
        ghost var front := PointTag() + IntItem(p.id) + IntItem(|p.vals|);
        assert PrintMany(PrintVal, []) == [] by { NothingPrinted(PrintVal); }
        var i := 0;
        while i < |p.vals|
          invariant 0 <= i <= |p.vals| && Valid()
          invariant forall k :: 0 <= k < i ==> !p.vals[k].NoVal?
          invariant written == start + (front + PrintMany(PrintVal, p.vals[..i]))
          invariant total == |front| + |PrintMany(PrintVal, p.vals[..i])|
        {
          count := EmitVal(p.vals[i]);
          if count < 0 {
            assert p.vals[i] in p.vals;
            return -1;
          }
          total := total + count;
          OneMore(PrintVal, p.vals, i);
          Assoc(start, front + PrintMany(PrintVal, p.vals[..i]), PrintVal(p.vals[i]));
          Assoc(front, PrintMany(PrintVal, p.vals[..i]), PrintVal(p.vals[i]));
          i := i + 1;
        }
        assert p.vals[..i] == p.vals;
        Assoc(PointTag() + IntItem(p.id), IntItem(|p.vals|), PrintMany(PrintVal, p.vals));
      }
    }

    /** hperf_serialize. */
    method EmitPerf(perf: seq<string>) returns (total: nat)
      requires Valid()
      modifies this`pos, this`left, this`written, buf
      ensures Valid() && written == old(written) + PrintPerf(perf) && total == |PrintPerf(perf)|
    {
      hide Valid, PerfTag, IntItem, TokenItem, PrintMany;
      ghost var start := written;
      ghost var front := PerfTag() + [' '] + IntItem(|perf|);
      total := Emit(PerfTag() + [' '] + IntItem(|perf|));
      NothingPrinted(TokenItem);
      var i := 0;
      while i < |perf|
        invariant 0 <= i <= |perf| && Valid()
        invariant written == start + (front + PrintMany(TokenItem, perf[..i]))
        invariant total == |front| + |PrintMany(TokenItem, perf[..i])|
      {
        var count := Emit(TokenItem(perf[i]));
        total := total + count;
        OneMore(TokenItem, perf, i);
        Assoc(start, front + PrintMany(TokenItem, perf[..i]), TokenItem(perf[i]));
        Assoc(front, PrintMany(TokenItem, perf[..i]), TokenItem(perf[i]));
        i := i + 1;
      }
      assert perf[..i] == perf;
    }

    /** The loop over an enumeration's members. */
    method EmitMembers(members: seq<Str>) returns (total: nat)
      requires Valid()
      modifies this`pos, this`left, this`written, buf
      ensures Valid() && written == old(written) + PrintMany(PrintStr, members)
      ensures total == |PrintMany(PrintStr, members)|
    {
      hide Valid, PrintStr, PrintMany;
      ghost var start := written;
      NothingPrinted(PrintStr);
      total := 0;
      var i := 0;
      while i < |members|
        invariant 0 <= i <= |members| && Valid()
        invariant written == start + PrintMany(PrintStr, members[..i]) && total == |PrintMany(PrintStr, members[..i])|
      {
        var count := EmitStr(members[i]);
        total := total + count;
        OneMore(PrintStr, members, i);
        Assoc(start, PrintMany(PrintStr, members[..i]), PrintStr(members[i]));
        i := i + 1;
      }
      assert members[..i] == members;
    }

    /** hrange_serialize. */
    method EmitRange(r: Range) returns (total: int)
      requires Valid()
      modifies this`pos, this`left, this`written, buf
      ensures Valid()
      ensures r.NoRange? <==> total == -1
      ensures !r.NoRange? ==> written == old(written) + PrintRange(r) && total == |PrintRange(r)|
    {
      hide Valid, RangeTag, IntItem, TokenItem, PrintStr, TypeWord, PrintMany;
      ghost var start := written;
      total := Emit(RangeTag() + [' ']);
      var count := EmitStr(r.name);
      total := total + count;
      ghost var mid := written;
      Assoc(start, RangeTag() + [' '], PrintStr(r.name));
      match r {
        case IntRange(_, min, max, step) =>
          count := Emit(TypeWord(IntType) + [' ']);
          total := total + count;
          count := Emit(IntItem(min) + IntItem(max) + IntItem(step));
          FourItems(TypeWord(IntType) + [' '], IntItem(min), IntItem(max), IntItem(step));
        case RealRange(_, low, high, stride) =>
          count := Emit(TypeWord(RealType) + [' ']);
          total := total + count;
          count := Emit(TokenItem(low) + TokenItem(high) + TokenItem(stride));
          FourItems(TypeWord(RealType) + [' '], TokenItem(low), TokenItem(high), TokenItem(stride));
        case EnumRange(_, members) =>
          count := Emit(TypeWord(StrType) + [' ']);
          total := total + count;
          count := Emit(IntItem(|members|));
          total := total + count;
          Assoc(mid, TypeWord(StrType) + [' '], IntItem(|members|));
          count := EmitMembers(members);
          Assoc(mid, TypeWord(StrType) + [' '] + IntItem(|members|), PrintMany(PrintStr, members));
        case NoRange(_) =>
          return -1;
      }
      total := total + count;
      Assoc(mid, PrintBounds(r), []);
      assert written == mid + PrintBounds(r);
      Assoc(start, RangeTag() + [' '] + PrintStr(r.name), PrintBounds(r));
    }

    /** hsignature_serialize. */
    method EmitSignature(sig: Signature) returns (total: int)
      requires Valid()
      modifies this`pos, this`left, this`written, buf
      ensures Valid()
      ensures !SignaturePrintable(sig) <==> total == -1
      ensures SignaturePrintable(sig) ==>
                written == old(written) + PrintSignature(sig) && total == |PrintSignature(sig)|
    {
      hide Valid, SigTag, IntItem, PrintStr, PrintRange, PrintMany;
      ghost var start := written;
      total := Emit(SigTag() + [' ']);
      var count: int := EmitStr(sig.name);
      total := total + count;
      Assoc(start, SigTag() + [' '], PrintStr(sig.name));
      count := Emit(IntItem(|sig.ranges|));
      total := total + count;
      Assoc(start, SigTag() + [' '] + PrintStr(sig.name), IntItem(|sig.ranges|));
      ghost var front := SigTag() + [' '] + PrintStr(sig.name) + IntItem(|sig.ranges|);
      NothingPrinted(PrintRange);
      var i := 0;
      while i < |sig.ranges|
        invariant 0 <= i <= |sig.ranges| && Valid()
        invariant forall k :: 0 <= k < i ==> !sig.ranges[k].NoRange?
        invariant written == start + (front + PrintMany(PrintRange, sig.ranges[..i]))
        invariant total == |front| + |PrintMany(PrintRange, sig.ranges[..i])|
      {
        count := EmitRange(sig.ranges[i]);
        if count < 0 {
          assert sig.ranges[i] in sig.ranges;
          return -1;
        }
        total := total + count;
        OneMore(PrintRange, sig.ranges, i);
        Assoc(start, front + PrintMany(PrintRange, sig.ranges[..i]), PrintRange(sig.ranges[i]));
        Assoc(front, PrintMany(PrintRange, sig.ranges[..i]), PrintRange(sig.ranges[i]));
        i := i + 1;
      }
      assert sig.ranges[..i] == sig.ranges;
    }

    /** hcfg_serialize: every slot is looked at, the taken ones are written. */
    method EmitCfg(t: Table) returns (total: nat)
      requires Valid()
      modifies this`pos, this`left, this`written, buf
      ensures Valid() && written == old(written) + PrintCfg(t) && total == |PrintCfg(t)|
    {
      hide Valid, CfgTag, IntItem, PrintStr, PrintMany, Listing, Pairs;
      ghost var start := written;
      ghost var front := CfgTag() + IntItem(t.count) + IntItem(t.logsize);
      total := Emit(CfgTag() + IntItem(t.count) + IntItem(t.logsize));
      NothingPrinted(PrintPair);
      NoPairs();
      var i := 0;
      while i < |t.slots|
        invariant 0 <= i <= |t.slots| && Valid()
        invariant written == start + (front + PrintMany(PrintPair, Pairs(Listing(t.slots[..i]))))
        invariant total == |front| + |PrintMany(PrintPair, Pairs(Listing(t.slots[..i])))|
      {
        ghost var list := Pairs(Listing(t.slots[..i]));
        OneSlot(t.slots, i);
        var slot := t.slots[i];
        if slot.Entry? {
          var count := EmitStr(Chars(slot.key));
          total := total + count;
          Assoc(start, front + PrintMany(PrintPair, list), PrintStr(Chars(slot.key)));
          count := EmitStr(Chars(slot.val));
          total := total + count;
          ghost var pair := (slot.key, Chars(slot.val));
          Assoc(start + (front + PrintMany(PrintPair, list)), PrintStr(Chars(slot.key)), PrintStr(Chars(slot.val)));
          PrintManySnoc(PrintPair, list, pair);
          Assoc(start, front + PrintMany(PrintPair, list), PrintPair(pair));
          Assoc(front, PrintMany(PrintPair, list), PrintPair(pair));
        }
        i := i + 1;
      }
      assert t.slots[..i] == t.slots;
    }

    /** hsession_serialize. */
    method EmitSession(s: Session) returns (total: int)
      requires Valid()
      modifies this`pos, this`left, this`written, buf
      ensures Valid()
      ensures !SignaturePrintable(s.sig) <==> total == -1
      ensures SignaturePrintable(s.sig) ==> written == old(written) + PrintSession(s) && total == |PrintSession(s)|
    {
      hide Valid, SessionTag, SignaturePrintable, PrintSignature, PrintCfg;
      ghost var start := written;
      total := Emit(SessionTag() + [' ']);
      var count := EmitSignature(s.sig);
      if count < 0 {
        return -1;
      }
      total := total + count;
      Assoc(start, SessionTag() + [' '], PrintSignature(s.sig));
      count := EmitCfg(s.cfg);
      total := total + count;
      Assoc(start, SessionTag() + [' '] + PrintSignature(s.sig), PrintCfg(s.cfg));
    }

    /** What a message's type and status carry. */
    method EmitData(payload: Payload, data: Data) returns (total: int)
      requires Valid() && (payload != Refused ==> DataFits(data, payload))
      modifies this`pos, this`left, this`written, buf
      ensures Valid()
      ensures payload == Refused || !DataPrintable(data) <==> total == -1
      ensures total >= 0 ==> written == old(written) + PrintData(data) && total == |PrintData(data)|
      ensures total >= -1
    {
      hide Valid, PrintStr, PrintPoint, PrintSignature, PrintSession, PrintPerf, IntItem, SignaturePrintable,
           PointPrintable;
      ghost var start := written;
      match payload {
        case SessionPayload => total := EmitSession(data.session);
        case JoinPayload => total := EmitSignature(data.join);
        case StringPayload => total := EmitStr(data.str);
        case PointPayload => total := EmitPoint(data.point);
        case ReportPayload =>
          total := Emit(IntItem(data.candidate));
          var count := EmitPerf(data.perf);
          total := total + count;
          Assoc(start, IntItem(data.candidate), PrintPerf(data.perf));
        case NoPayload =>
          total := 0;
          assert start + [] == start;
        case Refused => return -1;
      }
    }

    /** Everything behind the header, once; -1 when the message cannot be written. */
    method EmitBody(m: Mesg) returns (total: int)
      requires Valid()
      requires PayloadOf(m.kind, m.status) != Refused ==> DataFits(m.data, PayloadOf(m.kind, m.status))
      modifies this`pos, this`left, this`written, buf
      ensures Valid()
      ensures !MesgPrintable(m) <==> total == -1
      ensures MesgPrintable(m) ==> written == old(written) + PrintBody(m) && total == |PrintBody(m)|
    {
      if m.status.NoStatus? {
        return -1;
      }
      hide Valid, PrintStr, PrintData, PrintInt, KindWord, StatusWord, PayloadOf, DataFits, DataPrintable;
      ghost var start := written;
      ghost var front :=
        [':'] + PrintInt(m.dest) + [':'] + KindWord(m.kind) + [':'] + StatusWord(m.status) + [':'];
      total := Emit([':'] + PrintInt(m.dest) + [':'] + KindWord(m.kind) + [':'] + StatusWord(m.status) + [':']);
      var count: int := EmitStr(m.srcId);
      total := total + count;
      Assoc(start, front, PrintStr(m.srcId));
      count := EmitData(PayloadOf(m.kind, m.status), m.data);
      if count < 0 {
        return -1;
      }
      total := total + count;
      Assoc(start, front + PrintStr(m.srcId), PrintData(m.data));
    }
  }

  // ---- How the text grows -------------------------------------------------

  lemma NothingPrinted<T>(print_: T -> string)
    ensures PrintMany(print_, []) == []
  {}

  lemma OneMore<T>(print_: T -> string, list: seq<T>, i: nat)
    requires i < |list|
    ensures PrintMany(print_, list[..i + 1]) == PrintMany(print_, list[..i]) + print_(list[i])
  {
    assert list[..i + 1] == list[..i] + [list[i]];
    PrintManySnoc(print_, list[..i], list[i]);
  }

  lemma FourItems(a: string, b: string, c: string, d: string)
    ensures a + (b + c + d) == a + b + c + d
  {}

  lemma NoPairs()
    ensures Pairs(Listing([])) == []
  {}

  lemma {:induction false} ListingSnoc(slots: seq<Slot>, s: Slot)
    ensures Listing(slots + [s]) == if s.Entry? then Listing(slots) + [(s.key, s.val)] else Listing(slots)
  {
    if slots == [] {
      assert [s][1..] == [];
    } else {
      ListingSnoc(slots[1..], s);
      assert (slots + [s])[1..] == slots[1..] + [s];
    }
  }

  lemma OneSlot(slots: seq<Slot>, i: nat)
    requires i < |slots|
    ensures Pairs(Listing(slots[..i + 1])) ==
            if slots[i].Entry? then Pairs(Listing(slots[..i])) + [(slots[i].key, Chars(slots[i].val))]
            else Pairs(Listing(slots[..i]))
  {
    assert slots[..i + 1] == slots[..i] + [slots[i]];
    ListingSnoc(slots[..i], slots[i]);
  }

  // ---- The buffer --------------------------------------------------------

  /** A message's buffer. */
  class Buffer {
    var buf: array<char>
    var buflen: nat

    ghost predicate Valid()
      reads this
    {
      buflen <= buf.Length
    }

    constructor ()
      ensures Valid() && buflen == 0 && fresh(buf)
    {
      buf := new char[0];
      buflen := 0;
    }

    /** One pass over the message: the length of all of it, and the text in the
        buffer if it fits with a byte to spare. */
    method LayOut(m: Mesg) returns (total: int)
      requires Valid()
      requires PayloadOf(m.kind, m.status) != Refused ==> DataFits(m.data, PayloadOf(m.kind, m.status))
      modifies buf
      ensures !MesgPrintable(m) <==> total == -1
      ensures MesgPrintable(m) ==> total == |Serialized(m)|
      ensures MesgPrintable(m) && total < buflen ==> buf[HDRLEN..total] == PrintBody(m)
    {
      hide MesgPrintable, PayloadOf, DataFits, PrintBody, PrintHeader;
      var room := if buflen < HDRLEN then 0 else buflen - HDRLEN;
      var cursor := new Cursor(buf, HDRLEN, room);
      var count := cursor.EmitBody(m);
      if count < 0 {
        return -1;
      }
      total := HDRLEN + count;
      if total < buflen {
        assert [] + PrintBody(m) == PrintBody(m);
        assert cursor.Laid(PrintBody(m));
        assert forall k :: 0 <= k < count ==> buf[HDRLEN + k] == PrintBody(m)[k];
        assert buf[HDRLEN..total] == PrintBody(m);
      }
    }

    /** hmesg_serialize: lay the message out; when it does not fit, replace the
        buffer by one that is large enough and lay it out again.  It never takes
        a third time, and what is left is exactly the message. */
    method Serialize(m: Mesg) returns (total: int, ghost layouts: nat)
      requires Valid()
      requires PayloadOf(m.kind, m.status) != Refused ==> DataFits(m.data, PayloadOf(m.kind, m.status))
      modifies this, buf
      ensures Valid() && (buf == old(buf) || fresh(buf))
      ensures !MesgPrintable(m) <==> total == -1
      ensures MesgPrintable(m) ==> total == |Serialized(m)| < buflen && buf[..total] == Serialized(m)
      ensures layouts == if total == -1 || old(buflen) > total then 1 else 2
    {
      hide MesgPrintable, PayloadOf, DataFits, PrintBody, PrintHeader;
      layouts := 0;
      while true
        invariant Valid() && (buf == old(buf) || fresh(buf))
        invariant layouts == 0 ==> buflen == old(buflen)
        invariant layouts == 1 ==> MesgPrintable(m) && buflen == |Serialized(m)| + 1 && old(buflen) < buflen
        invariant layouts <= 1
        decreases 1 - layouts
      {
        total := LayOut(m);
        layouts := layouts + 1;
        if total < 0 {
          return;
        }
        if total < buflen {
          CopyHeader(total);
          assert buf[..total] == buf[..HDRLEN] + buf[HDRLEN..total];
          return;
        }
        buf := new char[total + 1];
        buflen := total + 1;
      }
    }

    /** The header goes into the room left for it. */
    method CopyHeader(total: nat)
      requires Valid() && HDRLEN <= total < buflen
      modifies buf
      ensures buf[..HDRLEN] == PrintHeader(total) && buf[HDRLEN..total] == old(buf[HDRLEN..total])
    {
      var hdr := PrintHeader(total);
      var i := 0;
      while i < HDRLEN
        invariant 0 <= i <= HDRLEN && buf[..i] == hdr[..i] && buf[HDRLEN..total] == old(buf[HDRLEN..total])
      {
        buf[i] := hdr[i];
        i := i + 1;
      }
    }
  }
}
