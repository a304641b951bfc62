/** The bytes of some messages, spelled out: the words and tags of the protocol, and where
    blanks stand. */
module Layouts {
  import opened Text
  import opened HashTable
  import opened HashMapping
  import opened Wire
  import opened Header

  /** The three letters of every type and status, in front of source id and data. */
  lemma FrontText(m: Mesg, word: string, answer: string)
    requires word == match m.kind
                     case UnknownKind => "UNK"
                     case SessionKind => "SES"
                     case JoinKind => "JOI"
                     case GetCfgKind => "QRY"
                     case SetCfgKind => "INF"
                     case BestKind => "BST"
                     case FetchKind => "FET"
                     case ReportKind => "REP"
                     case RestartKind => "RES"
    requires m.status != NoStatus
    requires answer == match m.status case Request => "REQ" case Okay => "ACK" case Failed => "ERR" case _ => "BSY"
    ensures PrintBody(m) ==
            ":" + PrintInt(m.dest) + ":" + word + ":" + answer + ":" + PrintStr(m.srcId) + PrintData(m.data)
  {
    hide PrintInt, PrintStr, PrintData;
  }

  lemma SmallNumbers()
    ensures PrintNat(0) == "0" && PrintNat(1) == "1" && PrintNat(2) == "2" && PrintNat(3) == "3" && PrintNat(8) == "8"
    ensures PrintInt(0) == "0" && PrintInt(1) == "1" && PrintInt(2) == "2" && PrintInt(3) == "3" && PrintInt(8) == "8"
    ensures PrintInt(-4) == "-4"
  {
    assert PrintNat(4) == "4";
  }

  lemma OneCharText(c: char)
    ensures PrintStr(Chars([c])) == ['1', '"', c, '"', ' ']
  {
    SmallNumbers();
    assert |[c]| == 1;
    assert "1" + ['"'] + [c] + "\" " == ['1', '"', c, '"', ' '];
  }

  lemma ItemTexts()
    ensures IntItem(0) == "0 " && IntItem(1) == "1 " && IntItem(2) == "2 " && IntItem(3) == "3 " && IntItem(8) == "8 "
    ensures IntItem(-4) == "-4 "
  {
    SmallNumbers();
    hide PrintInt;
  }

  lemma OneOf<T>(print_: T -> string, a: T)
    ensures PrintMany(print_, [a]) == print_(a)
  {
    assert [a][1..] == [] && PrintMany(print_, []) == [];
  }

  /** A value of each type. */
  lemma ValTexts(token: string)
    ensures PrintVal(IntVal(-4)) == "hval:INT -4 "
    ensures PrintVal(RealVal(token)) == "hval:REL " + token + " "
    ensures PrintVal(StrVal(Chars("z"))) == "hval:STR 1\"z\" "
  {
    ItemTexts();
    OneCharText('z');
    hide IntItem, PrintStr;
  }

  /** Points: one that is no candidate is its id alone. */
  lemma PointTexts()
    ensures PrintPoint(Point(2, [IntVal(-4)])) == "hpoint:2 1 hval:INT -4 "
    ensures PrintPoint(Point(-4, [IntVal(1)])) == "hpoint:-4 "
  {
    ItemTexts();
    ValTexts("");
    OneOf(PrintVal, IntVal(-4));
    hide IntItem, PrintVal, PrintMany;
    assert "1 " + "hval:INT -4 " == "1 hval:INT -4 ";
  }

  lemma PerfText(token: string)
    ensures PrintPerf([token]) == "perf: 1 " + token + " "
  {
    ItemTexts();
    OneOf(TokenItem, token);
    hide IntItem, PrintMany;
    assert "perf:" + [' '] + "1 " == "perf: 1 ";
    assert "perf: 1 " + (token + [' ']) == "perf: 1 " + token + " ";
  }

  lemma RangeFront()
    ensures RangeTag() + [' '] + PrintStr(Chars("x")) == "range: 1\"x\" "
  {
    OneCharText('x');
    hide PrintStr;
    assert "range:" + [' '] == "range: ";
  }

  /** A range of each type. */
  lemma IntRangeText()
    ensures PrintRange(IntRange(Chars("x"), 1, 8, 2)) == "range: 1\"x\" INT 1 8 2 "
  {
    ItemTexts();
    RangeFront();
    hide IntItem, PrintStr;
    assert PrintBounds(IntRange(Chars("x"), 1, 8, 2)) == "INT 1 8 2 ";
    hide PrintBounds;
  }

  lemma RealRangeText(low: string, high: string, stride: string)
    ensures PrintRange(RealRange(Chars("x"), low, high, stride)) ==
            "range: 1\"x\" " + ("REL " + low + " " + high + " " + stride + " ")
  {
    RangeFront();
    hide PrintStr;
    assert PrintBounds(RealRange(Chars("x"), low, high, stride)) == "REL " + low + " " + high + " " + stride + " ";
    hide PrintBounds;
  }

  lemma EnumRangeText()
    ensures PrintRange(EnumRange(Chars("x"), [Chars("z")])) == "range: 1\"x\" STR 1 1\"z\" "
  {
    ItemTexts();
    RangeFront();
    OneCharText('z');
    OneOf(PrintStr, Chars("z"));
    hide IntItem, PrintStr, PrintMany;
    assert PrintBounds(EnumRange(Chars("x"), [Chars("z")])) == "STR 1 1\"z\" ";
    hide PrintBounds;
  }

  /** A session without variables and with a new configuration. */
  lemma SessionText()
    ensures PrintSession(Session(Signature(Chars("s"), []), NewTable())) == "session: sig: 1\"s\" 0 hcfg:0 8 "
  {
    SignatureText();
    NewCfgText();
    hide PrintSignature, PrintCfg;
    assert "session:" + [' '] + "sig: 1\"s\" 0 " == "session: sig: 1\"s\" 0 ";
    assert "session: sig: 1\"s\" 0 " + "hcfg:0 8 " == "session: sig: 1\"s\" 0 hcfg:0 8 ";
  }

  lemma SignatureText()
    ensures PrintSignature(Signature(Chars("s"), [])) == "sig: 1\"s\" 0 "
  {
    ItemTexts();
    OneCharText('s');
    assert PrintMany(PrintRange, []) == [];
    hide IntItem, PrintStr, PrintMany;
    assert "sig:" + [' '] + "1\"s\" " == "sig: 1\"s\" ";
  }

  lemma NewCfgText()
    ensures PrintCfg(NewTable()) == "hcfg:0 8 "
  {
    ItemTexts();
    NoEntries(NewTable().slots);
    var list := Pairs(Listing(NewTable().slots));
    assert list == [] && PrintMany(PrintPair, list) == [];
    hide IntItem, PrintMany, Listing, Pairs, EmptySlots;
  }
}
