/** The generated .cpp files read back: every maker and every dispatcher as the statements that PacketCode runs, and the
    switch as numbers and names. */
module CppReading {
  import opened Bytes
  import opened CPacketBuffer
  import opened PacketSheet
  import opened PacketCode
  import opened PacketText
  import opened TextReading
  import opened Wrappers

  /** Names that cannot be mistaken for a statement: besides what TextReading asks for, no shift operator in types and
      names, and every field has a name. */
  predicate Plain(p: Packet) {
    Printable(p) && forall i :: 0 <= i < |p.fields| ==> PlainField(p.fields[i])
  }

  predicate PlainField(f: Field) { Free(f.typ, {'>'}) && Free(f.name, {'>', '<'}) && f.name != "" }

  predicate AllPlain(packets: seq<Packet>) { forall i :: 0 <= i < |packets| ==> Plain(packets[i]) }

  // ---------------------------------------------------------------- the statements of a maker

  /** sizeof(a) + sizeof(b) + ... */
  function ParseSizes(s: string): Option<seq<string>>
    decreases |s|
  {
    match Behind(s, "sizeof(")
    case None => None
    case Some(r) =>
      var n := First(r, {')'});
      if r[n..] == ")" then Some([r[..n]])
      else
        match Behind(r[n..], ") + ")
        case None => None
        case Some(more) =>
          match ParseSizes(more)
          case None => None
          case Some(types) => Some([r[..n]] + types)
  }

  /** The names shifted in. */
  function ParseChain(s: string): Option<seq<string>>
    decreases |s|
  {
    if s == "" then Some([])
    else
      match Behind(s, " << ")
      case None => None
      case Some(r) =>
        var n := First(r, {' '});
        match ParseChain(r[n..])
        case None => None
        case Some(names) => Some([r[..n]] + names)
  }

  function ParseMakerStmt(s: string): Option<MakerStmt> {
    if s == "\tPktHeader pktHeader;" then Some(DeclareHeader)
    else if s == "\tpktHeader.Code = 0x98; " then Some(SetCode)
    else if s == "\tpacket.Clear();" then Some(ClearPacket)
    else if Between(s, "\tpacket.PutData(", ");") == Some("(char*)&pktHeader, sizeof(PktHeader)") then Some(PutHeader)
    else
      match Between(s, "\tpktHeader.Type = ", ";")
      case Some(number) =>
        (match ParseNumber(number)
         case None => None
         case Some(index) => Some(SetType(index)))
      case None =>
        match Between(s, "\tpktHeader.Len = ", ";")
        case Some(sum) =>
          if sum == "0" then Some(SetLen([]))
          else
            (match ParseSizes(sum)
             case None => None
             case Some(types) => Some(SetLen(types)))
        case None =>
          match Between(s, "\tpacket", ";")
          case None => None
          case Some(chain) =>
            match ParseChain(chain)
            case None => None
            case Some(names) => Some(ShiftIn(names))
  }

  predicate PlainTypes(types: seq<string>) { forall i :: 0 <= i < |types| ==> Free(types[i], {')', '\n'}) }

  predicate PlainNames(names: seq<string>) {
    forall i :: 0 <= i < |names| ==> Free(names[i], {',', ')', '\n', ' ', '>', '<'}) && names[i] != ""
  }

  lemma OneSize(t: string, rest: string)
    requires Free(t, {')', '\n'}) && rest != "" && rest[0] == ')'
    ensures Behind("sizeof(" + (t + rest), "sizeof(") == Some(t + rest) && First(t + rest, {')'}) == |t|
    ensures (t + rest)[..|t|] == t && (t + rest)[|t|..] == rest
    ensures OneLine(rest) ==> OneLine("sizeof(" + (t + rest))
  {
    BehindPrefix("sizeof(", t + rest);
    Taken(t, rest, {')'});
    if OneLine(rest) {
      assert OneLine("sizeof(");
      BothLines(t, rest);
      BothLines("sizeof(", t + rest);
    }
  }

  lemma LastSize(t: string)
    requires Free(t, {')', '\n'})
    ensures ParseSizes("sizeof(" + (t + ")")) == Some([t]) && OneLine("sizeof(" + (t + ")"))
  {
    assert OneLine(")");
    OneSize(t, ")");
  }

  lemma NextSize(t: string, more: string)
    requires Free(t, {')', '\n'}) && ParseSizes(more).Some? && OneLine(more)
    ensures ParseSizes("sizeof(" + (t + (") + " + more))) == Some([t] + ParseSizes(more).value)
    ensures OneLine("sizeof(" + (t + (") + " + more)))
  {
    BehindPrefix(") + ", more);
    assert OneLine(") + ");
    BothLines(") + ", more);
    assert |") + " + more| > 1;
    OneSize(t, ") + " + more);
  }

  lemma {:induction false} SizesAreReadBack(types: seq<string>)
    requires types != [] && PlainTypes(types)
    ensures var s := Join(" + ", SizeTexts(types)); ParseSizes(s) == Some(types) && OneLine(s)
    decreases |types|
  {
    hide ParseSizes, OneLine;
    var t, sizes := types[0], SizeTexts(types);
    assert types == [t] + types[1..];
    if |types| == 1 {
      assert sizes == ["sizeof(" + t + ")"] && types == [t];
      assert "sizeof(" + t + ")" == "sizeof(" + (t + ")");
      LastSize(t);
    } else {
      var more := Join(" + ", SizeTexts(types[1..]));
      SizesAreReadBack(types[1..]);
      assert sizes[1..] == SizeTexts(types[1..]);
      assert ("sizeof(" + t + ")") + " + " + more == "sizeof(" + (t + (") + " + more));
      NextSize(t, more);
    }
  }

  lemma NextName(name: string, rest: string)
    requires Free(name, {' ', '\n'}) && (rest == "" || rest[0] == ' ') && ParseChain(rest).Some? && OneLine(rest)
    ensures ParseChain(" << " + (name + rest)) == Some([name] + ParseChain(rest).value)
    ensures OneLine(" << " + (name + rest))
  {
    BehindPrefix(" << ", name + rest);
    Taken(name, rest, {' '});
    assert OneLine(" << ");
    BothLines(name, rest);
    BothLines(" << ", name + rest);
  }

  lemma {:induction false} ChainIsReadBack(names: seq<string>)
    requires PlainNames(names)
    ensures var s := Marked(" << ", names);
            ParseChain(s) == Some(names) && OneLine(s) && (s != "" ==> s[0] == ' ')
    decreases |names|
  {
    hide ParseChain, OneLine;
    if names != [] {
      var name, rest := names[0], Marked(" << ", names[1..]);
      ChainIsReadBack(names[1..]);
      assert " << " + name + rest == " << " + (name + rest);
      assert Free(name, {' ', '\n'});
      NextName(name, rest);
      assert names == [name] + names[1..];
    } else {
      NothingShifted();
    }
  }

  lemma NothingShifted()
    ensures ParseChain("") == Some([]) && OneLine("")
  {
  }

  lemma FixedStmtsAreReadBack()
    ensures ParseMakerStmt(MakerStmtLine(DeclareHeader)) == Some(DeclareHeader)
    ensures ParseMakerStmt(MakerStmtLine(SetCode)) == Some(SetCode)
    ensures ParseMakerStmt(MakerStmtLine(ClearPacket)) == Some(ClearPacket)
  {
    var d, c, l := MakerStmtLine(DeclareHeader), MakerStmtLine(SetCode), MakerStmtLine(ClearPacket);
    assert c[1] == 'p' && l[1] == 'p' && d[1] == 'P';
    assert c[2] == 'k' && l[2] == 'a';
  }

  lemma PutHeaderIsReadBack()
    ensures ParseMakerStmt(MakerStmtLine(PutHeader)) == Some(PutHeader) && OneLine(MakerStmtLine(PutHeader))
  {
    var s, what := MakerStmtLine(PutHeader), "(char*)&pktHeader, sizeof(PktHeader)";
    assert s[1] == 'p' && s[2] == 'a' && s[8] == 'P';
    assert "\tPktHeader pktHeader;"[1] == 'P' && "\tpktHeader.Code = 0x98; "[2] == 'k';
    assert "\tpacket.Clear();"[8] == 'C';
    BetweenBoth("\tpacket.PutData(", what, ");");
    PutHeaderIsLine();
  }

  lemma PutHeaderIsLine()
    ensures OneLine(MakerStmtLine(PutHeader))
  {
    assert OneLine("\tpacket.PutData(") && OneLine("(char*)&pktHeader, sizeof(PktHeader)") && OneLine(");");
    WrappedIsLine("\tpacket.PutData(", "(char*)&pktHeader, sizeof(PktHeader)", ");");
  }

  lemma BeginningsAreLines()
    ensures OneLine("\tpktHeader.Type = ") && OneLine("\tpktHeader.Len = ") && OneLine("\tpacket") && OneLine(";")
    ensures OneLine("0")
  {
  }

  lemma FixedStmtsAreLines()
    ensures OneLine(MakerStmtLine(DeclareHeader)) && OneLine(MakerStmtLine(SetCode))
    ensures OneLine(MakerStmtLine(ClearPacket))
  {
  }

  /** A line that sets a member of the header is none of the other fixed lines. */
  lemma HeaderMember(s: string)
    requires |s| > 11 && s[1] == 'p' && s[2] == 'k' && s[11] != 'C'
    ensures s != "\tPktHeader pktHeader;" && s != "\tpktHeader.Code = 0x98; "
    ensures s != "\tpacket.Clear();" && Between(s, "\tpacket.PutData(", ");") == None
  {
    assert "\tPktHeader pktHeader;"[1] == 'P' && "\tpktHeader.Code = 0x98; "[11] == 'C';
    assert "\tpacket.Clear();"[2] == 'a';
    NotBetween(s, "\tpacket.PutData(", ");", 2);
  }

  lemma SetTypeIsReadBack(index: nat)
    ensures ParseMakerStmt(MakerStmtLine(SetType(index))) == Some(SetType(index))
    ensures OneLine(MakerStmtLine(SetType(index)))
  {
    hide Decimal, ParseNumber, ParseSizes, ParseChain, OneLine;
    var s := MakerStmtLine(SetType(index));
    BeginningsAreLines();
    NumberIsReadBack(index);
    NumberIsLine(Decimal(index));
    assert s[1] == 'p' && s[2] == 'k' && s[11] == 'T';
    HeaderMember(s);
    BetweenBoth("\tpktHeader.Type = ", Decimal(index), ";");
    WrappedIsLine("\tpktHeader.Type = ", Decimal(index), ";");
  }

  lemma NumberIsLine(s: string)
    requires IsNumber(s)
    ensures OneLine(s)
  {
  }

  lemma SetLenIsReadBack(types: seq<string>)
    requires PlainTypes(types)
    ensures ParseMakerStmt(MakerStmtLine(SetLen(types))) == Some(SetLen(types))
    ensures OneLine(MakerStmtLine(SetLen(types)))
  {
    hide ParseNumber, ParseSizes, ParseChain, Join, SizeTexts, OneLine;
    BeginningsAreLines();
    var s, sum := MakerStmtLine(SetLen(types)), if types == [] then "0" else Join(" + ", SizeTexts(types));
    if types != [] {
      SizesAreReadBack(types);
      NoSizeIsZero(types);
    }
    assert s[1] == 'p' && s[2] == 'k' && s[11] == 'L';
    HeaderMember(s);
    NotBetween(s, "\tpktHeader.Type = ", ";", 11);
    BetweenBoth("\tpktHeader.Len = ", sum, ";");
    WrappedIsLine("\tpktHeader.Len = ", sum, ";");
  }

  lemma NoSizeIsZero(types: seq<string>)
    requires ParseSizes(Join(" + ", SizeTexts(types))).Some?
    ensures Join(" + ", SizeTexts(types)) != "0"
  {
  }

  lemma ShiftInIsReadBack(names: seq<string>)
    requires PlainNames(names)
    ensures ParseMakerStmt(MakerStmtLine(ShiftIn(names))) == Some(ShiftIn(names))
    ensures OneLine(MakerStmtLine(ShiftIn(names)))
  {
    hide ParseNumber, ParseSizes, ParseChain, OneLine;
    BeginningsAreLines();
    var s, chain := MakerStmtLine(ShiftIn(names)), Marked(" << ", names);
    ChainIsReadBack(names);
    assert s[1] == 'p' && s[2] == 'a' && s[7] != '.';
    assert "\tPktHeader pktHeader;"[1] == 'P' && "\tpktHeader.Code = 0x98; "[2] == 'k';
    assert "\tpacket.Clear();"[7] == '.';
    NotBetween(s, "\tpacket.PutData(", ");", 7);
    NotBetween(s, "\tpktHeader.Type = ", ";", 2);
    NotBetween(s, "\tpktHeader.Len = ", ";", 2);
    BetweenBoth("\tpacket", chain, ";");
    WrappedIsLine("\tpacket", chain, ";");
  }

  // ---------------------------------------------------------------- functions

  /** All lines parsed. */
  function ParseMakerBody(lines: seq<string>): Option<seq<MakerStmt>> {
    if lines == [] then Some([])
    else
      match ParseMakerStmt(lines[0])
      case None => None
      case Some(s) =>
        match ParseMakerBody(lines[1..])
        case None => None
        case Some(body) => Some([s] + body)
  }

  /** The lines between braces, and what follows. */
  function TakeBody(lines: seq<string>): (r: Option<(seq<string>, seq<string>)>)
    ensures r.Some? ==> |r.value.1| < |lines|
  {
    if lines == [] || lines[0] != "{" then None
    else
      var n := ClosingBrace(lines[1..]);
      if n == |lines| - 1 then None else Some((lines[1..n + 1], lines[n + 2..]))
  }

  function ClosingBrace(lines: seq<string>): (n: nat)
    ensures n <= |lines|
  {
    if lines == [] || lines[0] == "}" then 0 else 1 + ClosingBrace(lines[1..])
  }

  lemma {:induction false} BraceBehind(body: seq<string>, rest: seq<string>)
    requires forall i :: 0 <= i < |body| ==> body[i] != "}"
    ensures ClosingBrace(body + (["}"] + rest)) == |body|
    decreases |body|
  {
    var lines := body + (["}"] + rest);
    if body == [] {
      assert lines[0] == "}";
    } else {
      BraceBehind(body[1..], rest);
      assert lines[1..] == body[1..] + (["}"] + rest);
    }
  }

  lemma BodyIsTaken(body: seq<string>, rest: seq<string>)
    requires forall i :: 0 <= i < |body| ==> body[i] != "}"
    ensures TakeBody(["{"] + (body + (["}"] + rest))) == Some((body, rest))
  {
    var lines := ["{"] + (body + (["}"] + rest));
    assert lines[1..] == body + (["}"] + rest);
    BraceBehind(body, rest);
    assert lines[1..|body| + 1] == body && lines[|body| + 2..] == rest;
  }

  // ---------------------------------------------------------------- the makers

  /** Each maker: its signature, its body, a blank line. */
  function ParseMakers(lines: seq<string>): Option<seq<Maker>>
    decreases |lines|
  {
    if lines == [] then Some([])
    else
      match ParseSignature(lines[0])
      case None => None
      case Some(p) =>
        match TakeBody(lines[1..])
        case None => None
        case Some((body, rest)) =>
          if rest == [] || rest[0] != "" then None
          else
            match ParseMakerBody(body)
            case None => None
            case Some(stmts) =>
              match ParseMakers(rest[1..])
              case None => None
              case Some(ms) => Some([Maker(p.caseName, p.fields, stmts)] + ms)
  }

  datatype MakerFile = MakerFile(top: seq<TopLine>, makers: seq<Maker>)

  function ParseMakerCpp(s: string): Option<MakerFile> {
    match LinesOf(s)
    case None => None
    case Some(lines) =>
      var (top, rest) := ParseTop(lines);
      match ParseMakers(rest)
      case None => None
      case Some(makers) => Some(MakerFile(top, makers))
  }

  lemma PlainParts(p: Packet)
    requires Plain(p)
    ensures PlainTypes(TypesOf(p.fields)) && PlainNames(NamesOf(p.fields))
  {
    forall i | 0 <= i < |p.fields|
      ensures Free(TypesOf(p.fields)[i], {')', '\n'})
      ensures Free(NamesOf(p.fields)[i], {',', ')', '\n', ' ', '>', '<'}) && NamesOf(p.fields)[i] != ""
    {
      assert PlainField(p.fields[i]) && PrintableField(p.fields[i]);
    }
  }

  lemma StmtsBeginWithTab(s: MakerStmt)
    ensures MakerStmtLine(s) != "}"
  {
    assert "}"[0] == '}';
    assert MakerStmtLine(s)[0] == '\t' by {
      match s
      case PutHeader => assert "\tpacket.PutData("[0] == '\t';
      case _ =>
    }
  }

  lemma MakerStmtIsReadBack(p: Packet, index: nat, i: nat)
    requires Plain(p) && i < 7
    ensures var s := MakerOf(p, index).body[i];
            ParseMakerStmt(MakerStmtLine(s)) == Some(s) && OneLine(MakerStmtLine(s)) && MakerStmtLine(s) != "}"
  {
    hide ParseMakerStmt, OneLine;
    FixedStmtsAreReadBack();
    FixedStmtsAreLines();
    PutHeaderIsReadBack();
    PlainParts(p);
    SetTypeIsReadBack(index);
    SetLenIsReadBack(TypesOf(p.fields));
    ShiftInIsReadBack(NamesOf(p.fields));
    StmtsBeginWithTab(MakerOf(p, index).body[i]);
  }

  lemma {:induction false} MakerBodyIsReadBack(body: seq<MakerStmt>)
    requires forall i :: 0 <= i < |body| ==> ParseMakerStmt(MakerStmtLine(body[i])) == Some(body[i])
    ensures ParseMakerBody(MakerStmtLines(body)) == Some(body)
  {
    hide ParseMakerStmt, MakerStmtLine;
    if body != [] {
      MakerBodyIsReadBack(body[1..]);
      assert MakerStmtLines(body)[1..] == MakerStmtLines(body[1..]);
      assert body == [body[0]] + body[1..];
    }
  }

  lemma OneMakerIsReadBack(p: Packet, index: nat, more: seq<string>)
    requires Plain(p) && ParseMakers(more).Some?
    ensures var m := MakerOf(p, index);
            && ParseMakers(MakerLines(m) + more) == Some([m] + ParseMakers(more).value)
            && AllLines(MakerLines(m)) && MakerLines(m)[0] != "" && MakerLines(m)[0][0] == 'v'
  {
    hide ParseMakerStmt, MakerStmtLine, ParseSignature, SignatureText, OneLine;
    var m := MakerOf(p, index);
    var sig, body := SignatureText(m), MakerStmtLines(m.body);
    SignatureIsReadBack(p, index);
    SignatureStarts(p, index);
    forall i | 0 <= i < |m.body|
      ensures ParseMakerStmt(MakerStmtLine(m.body[i])) == Some(m.body[i])
      ensures OneLine(MakerStmtLine(m.body[i])) && MakerStmtLine(m.body[i]) != "}"
    {
      MakerStmtIsReadBack(p, index, i);
    }
    MakerBodyIsReadBack(m.body);
    BodyIsTaken(body, [""] + more);
    BracesAreLines();
    MakerLinesWith(m, more);
    assert ([""] + more)[1..] == more;
  }

  lemma BracesAreLines()
    ensures OneLine("{") && OneLine("}") && OneLine("")
  {
  }

  lemma MakerLinesWith(m: Maker, more: seq<string>)
    ensures (MakerLines(m) + more)[0] == SignatureText(m) == MakerLines(m)[0]
    ensures (MakerLines(m) + more)[1..] == ["{"] + (MakerStmtLines(m.body) + (["}"] + ([""] + more)))
  {
    hide MakerStmtLine, SignatureText;
  }

  function MakersFrom(packets: seq<Packet>, i: nat): (ms: seq<Maker>)
    requires i <= |packets|
    ensures |ms| == |packets| - i && forall k :: i <= k < |packets| ==> ms[k - i] == MakerOf(packets[k], k)
    decreases |packets| - i
  {
    if i == |packets| then [] else [MakerOf(packets[i], i)] + MakersFrom(packets, i + 1)
  }

  lemma {:induction false} MakersAreReadBack(packets: seq<Packet>, i: nat)
    requires i <= |packets| && AllPlain(packets)
    ensures var lines := MakerLinesFrom(packets, i);
            && ParseMakers(lines) == Some(MakersFrom(packets, i)) && AllLines(lines)
            && (lines != [] ==> lines[0] != "" && lines[0][0] == 'v')
    decreases |packets| - i
  {
    hide MakerLines, MakerOf, Plain, OneLine;
    if i < |packets| {
      MakersAreReadBack(packets, i + 1);
      OneMakerIsReadBack(packets[i], i, MakerLinesFrom(packets, i + 1));
    } else {
      assert ParseMakers([]) == Some([]);
    }
  }

  lemma MakerTopIsLines()
    ensures AllLines(TopTexts(MAKER_CPP_TOP))
  {
    assert OneLine("stdafx.h") && OneLine("PacketMaker_Auto.h") && OneLine("define.h");
    hide OneLine;
    BracesAreLines();
    TopIsLines(MAKER_CPP_TOP);
  }

  /** The generated makers, read from their text, are the makers of the packets: to run the statements in the file is to
      run those of MakerOf. */
  lemma MakerCppIsReadBack(packets: seq<Packet>)
    requires AllPlain(packets)
    ensures ParseMakerCpp(MakerCpp(packets))
         == Some(MakerFile([Include("stdafx.h"), Include("PacketMaker_Auto.h"), Include("define.h"), Blank],
                           seq(|packets|, i requires 0 <= i < |packets| => MakerOf(packets[i], i))))
  {
    hide ParseTop, ParseMakers, LinesOf, TopTexts, MakerLinesFrom, MakerOf;
    var top, lines := TopTexts(MAKER_CPP_TOP), MakerLinesFrom(packets, 0);
    UnlinesAppend(top, lines);
    MakerTopIsLines();
    MakersAreReadBack(packets, 0);
    LinesAreReadBack(top + lines);
    if lines != [] {
      NoTopLine(lines[0]);
    }
    TopIsReadBack(MAKER_CPP_TOP, lines);
    assert MakersFrom(packets, 0) == seq(|packets|, i requires 0 <= i < |packets| => MakerOf(packets[i], i));
  }

  // ---------------------------------------------------------------- the statements of a dispatcher

  /** Arguments, with commas between them. */
  function ParseNames(s: string): Option<seq<string>>
    decreases |s|
  {
    if s == "" then Some([])
    else
      var n := First(s, {','});
      if n == |s| then Some([s])
      else
        match Behind(s[n..], ", ")
        case None => None
        case Some(r) =>
          match ParseNames(r)
          case None => None
          case Some(names) => Some([s[..n]] + names)
  }

  function ParseReaderStmt(s: string): Option<ReaderStmt> {
    match Between(s, "\tpacket >> ", ";")
    case Some(name) => Some(ShiftOut(name))
    case None =>
      match Between(s, "\thandler.On", ");")
      case Some(call) =>
        var n := First(call, {'('});
        (match Behind(call[n..], "(sessionId, ")
         case None => None
         case Some(args) =>
           match ParseNames(args)
           case None => None
           case Some(names) => Some(CallHandler(call[..n], names)))
      case None =>
        match Between(s, "\t", ";")
        case None => None
        case Some(word) =>
          var k := LastBlank(word);
          if k.None? then None else Some(Declare(FieldAt(word, k.value)))
  }

  lemma LastArgument(name: string)
    requires Free(name, {',', '\n'}) && name != ""
    ensures ParseNames(name) == Some([name])
  {
    FirstBehind(name, "", {','});
    assert name + "" == name;
  }

  lemma NextArgument(name: string, rest: string)
    requires Free(name, {',', '\n'}) && ParseNames(rest).Some? && OneLine(rest)
    ensures ParseNames(name + (", " + rest)) == Some([name] + ParseNames(rest).value)
    ensures OneLine(name + (", " + rest))
  {
    Taken(name, ", " + rest, {','});
    BehindPrefix(", ", rest);
    assert OneLine(", ");
    BothLines(", ", rest);
    BothLines(name, ", " + rest);
  }

  lemma {:induction false} NamesAreReadBack(names: seq<string>)
    requires PlainNames(names)
    ensures ParseNames(Join(", ", names)) == Some(names) && OneLine(Join(", ", names))
    decreases |names|
  {
    if names == [] {
      assert ParseNames("") == Some([]);
    } else {
      hide ParseNames;
      var name := names[0];
      assert Free(name, {',', '\n'});
      assert names == [name] + names[1..];
      if |names| == 1 {
        assert names == [name];
        LastArgument(name);
      } else {
        var rest := Join(", ", names[1..]);
        NamesAreReadBack(names[1..]);
        assert name + ", " + rest == name + (", " + rest);
        NextArgument(name, rest);
      }
    }
  }

  lemma ShiftOutIsReadBack(name: string)
    requires OneLine(name)
    ensures var s := ReaderStmtLine(ShiftOut(name)); ParseReaderStmt(s) == Some(ShiftOut(name)) && OneLine(s)
  {
    BetweenBoth("\tpacket >> ", name, ";");
    assert OneLine("\tpacket >> ") && OneLine(";");
    WrappedIsLine("\tpacket >> ", name, ";");
  }

  lemma CallIsReadBack(caseName: string, names: seq<string>)
    requires Free(caseName, {'(', '\n'}) && PlainNames(names)
    ensures var s := ReaderStmtLine(CallHandler(caseName, names));
            ParseReaderStmt(s) == Some(CallHandler(caseName, names)) && OneLine(s)
  {
    hide ParseNames;
    var args := Join(", ", names);
    var call := caseName + "(sessionId, " + args;
    var s := "\thandler.On" + call + ");";
    NamesAreReadBack(names);
    assert s[1] == 'h';
    NotBetween(s, "\tpacket >> ", ";", 1);
    BetweenBoth("\thandler.On", call, ");");
    assert call == caseName + ("(sessionId, " + args);
    Taken(caseName, "(sessionId, " + args, {'('});
    BehindPrefix("(sessionId, ", args);
    CallIsLine(caseName, args);
  }

  lemma CallIsLine(caseName: string, args: string)
    requires OneLine(caseName) && OneLine(args)
    ensures OneLine("\thandler.On" + (caseName + "(sessionId, " + args) + ");")
  {
    assert OneLine("\thandler.On") && OneLine("(sessionId, ") && OneLine(");");
    WrappedIsLine(caseName, "(sessionId, ", args);
    WrappedIsLine("\thandler.On", caseName + "(sessionId, " + args, ");");
  }

  /** A declaration is not taken for a shift or a call. */
  lemma DeclarationIsNoOther(word: string, name: string)
    requires Free(word, {'>'}) && word != "" && word[|word| - 1] != ')'
    ensures Between("\t" + word + ";", "\tpacket >> ", ";") == None
    ensures Between("\t" + word + ";", "\thandler.On", ");") == None
  {
    var s := "\t" + word + ";";
    assert forall i :: 0 <= i < |s| ==> s[i] != '>';
    if 8 < |s| {
      NotBetween(s, "\tpacket >> ", ";", 8);
    }
    assert s[|s| - 2] == word[|word| - 1];
    assert |s| >= 2 ==> s[|s| - 2..][0] == s[|s| - 2];
  }

  lemma DeclareIsReadBack(f: Field)
    requires PrintableField(f) && PlainField(f)
    ensures var s := ReaderStmtLine(Declare(f)); ParseReaderStmt(s) == Some(Declare(f)) && OneLine(s)
  {
    var word := f.typ + " " + f.name;
    WordIsRead(f);
    DeclarationIsNoOther(word, f.name);
    BetweenBoth("\t", word, ";");
    assert OneLine("\t") && OneLine(";");
    BothLines("\t", word);
    BothLines("\t" + word, ";");
  }

  lemma ReaderStmtIsReadBack(p: Packet, i: nat)
    requires Plain(p) && i < |ReaderOf(p)|
    ensures var s := ReaderOf(p)[i];
            && ParseReaderStmt(ReaderStmtLine(s)) == Some(s) && OneLine(ReaderStmtLine(s))
            && ReaderStmtLine(s) != "" && ReaderStmtLine(s)[0] == '\t'
  {
    hide ParseReaderStmt, OneLine;
    StmtsAt(p.fields);
    PlainParts(p);
    var n := |p.fields|;
    if i < n {
      assert PlainField(p.fields[i]) && PrintableField(p.fields[i]);
      DeclareIsReadBack(p.fields[i]);
    } else if i < 2 * n {
      assert PrintableField(p.fields[i - n]);
      NameIsLine(p.fields[i - n]);
      ShiftOutIsReadBack(p.fields[i - n].name);
    } else {
      CallIsReadBack(p.caseName, NamesOf(p.fields));
    }
  }

  lemma NameIsLine(f: Field)
    requires PrintableField(f)
    ensures OneLine(f.name)
  {
  }

  lemma {:induction false} StmtsAt(fields: seq<Field>)
    ensures |Declares(fields)| == |fields| == |ShiftOuts(fields)|
    ensures forall i :: 0 <= i < |fields| ==>
              Declares(fields)[i] == Declare(fields[i]) && ShiftOuts(fields)[i] == ShiftOut(fields[i].name)
  {
    if fields != [] {
      StmtsAt(fields[1..]);
    }
  }

  // ---------------------------------------------------------------- the dispatchers

  function ParseReaderBody(lines: seq<string>): Option<seq<ReaderStmt>> {
    if lines == [] then Some([])
    else
      match ParseReaderStmt(lines[0])
      case None => None
      case Some(s) =>
        match ParseReaderBody(lines[1..])
        case None => None
        case Some(body) => Some([s] + body)
  }

  /** A function DispatchX. */
  datatype Dispatch = Dispatch(caseName: string, body: seq<ReaderStmt>)

  function ParseDispatchers(lines: seq<string>): Option<seq<Dispatch>>
    decreases |lines|
  {
    if lines == [] then Some([])
    else
      match Between(lines[0], "void PacketProcess_Auto::Dispatch", "(uint32_t sessionId, CPacket& packet)")
      case None => None
      case Some(caseName) =>
        match TakeBody(lines[1..])
        case None => None
        case Some((body, rest)) =>
          match ParseReaderBody(body)
          case None => None
          case Some(stmts) =>
            match ParseDispatchers(rest)
            case None => None
            case Some(ds) => Some([Dispatch(caseName, stmts)] + ds)
  }

  lemma {:induction false} ReaderBodyIsReadBack(body: seq<ReaderStmt>)
    requires forall i :: 0 <= i < |body| ==> ParseReaderStmt(ReaderStmtLine(body[i])) == Some(body[i])
    ensures ParseReaderBody(ReaderStmtLines(body)) == Some(body)
  {
    hide ParseReaderStmt, ReaderStmtLine;
    if body != [] {
      ReaderBodyIsReadBack(body[1..]);
      assert ReaderStmtLines(body)[1..] == ReaderStmtLines(body[1..]);
      assert body == [body[0]] + body[1..];
    }
  }

  lemma ReaderSignatureIsReadBack(p: Packet)
    requires Plain(p)
    ensures Between(ReaderSignature(p), "void PacketProcess_Auto::Dispatch", "(uint32_t sessionId, CPacket& packet)")
         == Some(p.caseName)
    ensures OneLine(ReaderSignature(p))
  {
    var a, b := "void PacketProcess_Auto::Dispatch", "(uint32_t sessionId, CPacket& packet)";
    BetweenBoth(a, p.caseName, b);
    assert OneLine(a) && OneLine(b);
    BothLines(a, p.caseName);
    BothLines(a + p.caseName, b);
  }

  lemma ReaderLinesWith(p: Packet, more: seq<string>)
    ensures (ReaderLines(p) + more)[0] == ReaderSignature(p)
    ensures (ReaderLines(p) + more)[1..] == ["{"] + (ReaderStmtLines(ReaderOf(p)) + (["}"] + more))
  {
    hide ReaderStmtLine, ReaderSignature;
  }

  lemma OneDispatcherIsReadBack(p: Packet, more: seq<string>)
    requires Plain(p) && ParseDispatchers(more).Some?
    ensures ParseDispatchers(ReaderLines(p) + more)
         == Some([Dispatch(p.caseName, ReaderOf(p))] + ParseDispatchers(more).value)
    ensures AllLines(ReaderLines(p))
  {
    hide ParseReaderStmt, ReaderStmtLine, ReaderSignature, ReaderOf, Between, OneLine;
    var body := ReaderOf(p);
    forall i | 0 <= i < |body|
      ensures ParseReaderStmt(ReaderStmtLine(body[i])) == Some(body[i]) && OneLine(ReaderStmtLine(body[i]))
      ensures ReaderStmtLine(body[i]) != "}"
    {
      ReaderStmtIsReadBack(p, i);
      assert "}"[0] == '}';
    }
    ReaderSignatureIsReadBack(p);
    ReaderBodyIsReadBack(body);
    BodyIsTaken(ReaderStmtLines(body), more);
    BracesAreLines();
    ReaderLinesWith(p, more);
  }

  function DispatchersFrom(packets: seq<Packet>, i: nat): seq<Dispatch>
    requires i <= |packets|
    decreases |packets| - i
  {
    if i == |packets| then []
    else [Dispatch(packets[i].caseName, ReaderOf(packets[i]))] + DispatchersFrom(packets, i + 1)
  }

  lemma {:induction false} DispatchersAreReadBack(packets: seq<Packet>, i: nat)
    requires i <= |packets| && AllPlain(packets)
    ensures var lines := ReaderLinesFrom(packets, i);
            ParseDispatchers(lines) == Some(DispatchersFrom(packets, i)) && AllLines(lines)
    decreases |packets| - i
  {
    hide ReaderLines, ReaderOf, Plain, OneLine;
    if i < |packets| {
      DispatchersAreReadBack(packets, i + 1);
      OneDispatcherIsReadBack(packets[i], ReaderLinesFrom(packets, i + 1));
    } else {
      assert ParseDispatchers([]) == Some([]);
    }
  }

  // ---------------------------------------------------------------- the switch

  /** A case: the type and the X of the DispatchX it calls. */
  datatype Case = Case(typ: nat, caseName: string)

  function ParseCase(s: string): Option<Case> {
    match Between(s, "\tcase ", "(sessionId, packet); break;")
    case None => None
    case Some(mark) =>
      var n := First(mark, {':'});
      match ParseNumber(mark[..n])
      case None => None
      case Some(typ) =>
        match Behind(mark[n..], ": Dispatch")
        case None => None
        case Some(caseName) => Some(Case(typ, caseName))
  }

  /** The cases, up to a default that only writes to the log. */
  function ParseCases(lines: seq<string>): Option<seq<Case>>
    decreases |lines|
  {
    if lines == [] then None
    else if lines[0] == "    default:" then
      if |lines| == 4 && Between(lines[1], "        SLog(ERROR_LEVEL, ", ");").Some?
         && lines[2] == "        break;" && lines[3] == "    }"
      then Some([]) else None
    else
      match ParseCase(lines[0])
      case None => None
      case Some(c) =>
        match ParseCases(lines[1..])
        case None => None
        case Some(cs) => Some([c] + cs)
  }

  datatype ProcessFile = ProcessFile(top: seq<TopLine>, cases: seq<Case>, dispatchers: seq<Dispatch>)

  function ParseProcessCpp(s: string): Option<ProcessFile> {
    match LinesOf(s)
    case None => None
    case Some(lines) =>
      var (top, rest) := ParseTop(lines);
      if rest == []
         || Between(rest[0], "void PacketProcess_Auto::Process(", ")")
            != Some("uint16_t type, " + "uint32_t sessionId, CPacket& packet")
      then None
      else
        match TakeBody(rest[1..])
        case None => None
        case Some((body, functions)) =>
          if body == [] || body[0] != "    switch (type) {" then None
          else
            match (ParseCases(body[1..]), ParseDispatchers(functions))
            case (Some(cases), Some(dispatchers)) => Some(ProcessFile(top, cases, dispatchers))
            case _ => None
  }

  lemma CaseIsReadBack(p: Packet, i: nat)
    requires Plain(p)
    ensures var s := CaseLine(p, i);
            ParseCase(s) == Some(Case(i, p.caseName)) && OneLine(s) && s != "" && s[0] == '\t'
  {
    hide Decimal, ParseNumber;
    var number, rest, end := Decimal(i), ": Dispatch" + p.caseName, "(sessionId, packet); break;";
    NumberIsReadBack(i);
    BetweenBoth("\tcase ", number + rest, end);
    Taken(number, rest, {':'});
    BehindPrefix(": Dispatch", p.caseName);
    CaseIsLine(number, p.caseName);
  }

  lemma CaseIsLine(number: string, caseName: string)
    requires IsNumber(number) && OneLine(caseName)
    ensures OneLine("\tcase " + (number + (": Dispatch" + caseName)) + "(sessionId, packet); break;")
  {
    assert OneLine("\tcase ") && OneLine(": Dispatch") && OneLine("(sessionId, packet); break;");
    NumberIsLine(number);
    BothLines(": Dispatch", caseName);
    BothLines(number, ": Dispatch" + caseName);
    WrappedIsLine("\tcase ", number + (": Dispatch" + caseName), "(sessionId, packet); break;");
  }

  function CasesFrom(packets: seq<Packet>, i: nat): (cs: seq<Case>)
    requires i <= |packets|
    ensures |cs| == |packets| - i && forall k :: i <= k < |packets| ==> cs[k - i] == Case(k, packets[k].caseName)
    decreases |packets| - i
  {
    if i == |packets| then [] else [Case(i, packets[i].caseName)] + CasesFrom(packets, i + 1)
  }

  /** The default, without the brace that ends the function. */
  function DefaultLines(): seq<string> { PROCESS_END[..4] }

  lemma LogIsLine()
    ensures OneLine(PROCESS_END[1]) && Between(PROCESS_END[1], "        SLog(ERROR_LEVEL, ", ");").Some?
  {
    var a, b, c := "        SLog(ERROR_LEVEL, ", "L\"Packet Process default case # ", "type is (%d)\", type";
    assert OneLine(a) && OneLine(b) && OneLine(c) && OneLine(");");
    BothLines(b, c);
    WrappedIsLine(a, b + c, ");");
    BetweenBoth(a, b + c, ");");
  }

  lemma DefaultIsReadBack()
    ensures ParseCases(DefaultLines()) == Some([]) && AllLines(DefaultLines())
    ensures forall i :: 0 <= i < |DefaultLines()| ==> DefaultLines()[i] != "}"
  {
    assert OneLine("    default:") && OneLine("        break;") && OneLine("    }");
    LogIsLine();
    assert "}"[0] == '}' && DefaultLines()[1][0] == ' ';
  }

  lemma {:induction false} CasesAreReadBack(packets: seq<Packet>, i: nat)
    requires i <= |packets| && AllPlain(packets)
    ensures var lines := CaseLinesFrom(packets, i) + DefaultLines();
            && ParseCases(lines) == Some(CasesFrom(packets, i)) && AllLines(lines)
            && forall k :: 0 <= k < |lines| ==> lines[k] != "}"
    decreases |packets| - i
  {
    hide CaseLine, ParseCase, Plain, OneLine, DefaultLines;
    if i < |packets| {
      CasesAreReadBack(packets, i + 1);
      CaseIsReadBack(packets[i], i);
      var lines := CaseLinesFrom(packets, i) + DefaultLines();
      assert lines[0] == CaseLine(packets[i], i);
      assert lines[1..] == CaseLinesFrom(packets, i + 1) + DefaultLines();
      assert "    default:"[0] == ' ' && "}"[0] == '}';
    } else {
      DefaultIsReadBack();
      assert CaseLinesFrom(packets, i) + DefaultLines() == DefaultLines();
    }
  }

  lemma ProcessNamesAreLines()
    ensures OneLine("stdafx.h") && OneLine("PacketProcess_Auto.h") && OneLine("PacketHandler_Auto.h")
    ensures OneLine("Util/SystemLogger.h") && OneLine("Util/CPacket.h") && OneLine("NetLib/Session.h")
    ensures OneLine("Contents/ContentsProcess.h") && OneLine("SystemLogger::LOG_LEVEL") && OneLine("")
  {
  }

  lemma ProcessTopIsLines()
    ensures AllLines(TopTexts(PROCESS_CPP_TOP))
  {
    hide TopText, OneLine;
    ProcessNamesAreLines();
    TopIsLines(PROCESS_CPP_TOP);
  }

  lemma ProcessStartIsReadBack()
    ensures Between(PROCESS_START[0], "void PacketProcess_Auto::Process(", ")")
         == Some("uint16_t type, " + "uint32_t sessionId, CPacket& packet")
    ensures PROCESS_START[0] != "" && PROCESS_START[0][0] == 'v'
    ensures AllLines(PROCESS_START) && PROCESS_START[1] == "{" && PROCESS_START[2] != "}"
  {
    var a, b, c := "void PacketProcess_Auto::Process(", "uint16_t type, ", "uint32_t sessionId, CPacket& packet";
    BetweenBoth(a, b + c, ")");
    assert OneLine(a) && OneLine(b) && OneLine(c) && OneLine(")");
    BothLines(b, c);
    BothLines(a, b + c);
    BothLines(a + (b + c), ")");
    assert OneLine("{") && OneLine("    switch (type) {");
    assert a[0] == 'v' && "    switch (type) {"[0] == ' ' && "}"[0] == '}';
  }

  /** The lines of the file behind its top, as the parser takes them. */
  function FunctionLines(packets: seq<Packet>): seq<string> {
    [PROCESS_START[0]] + (["{"] + (([PROCESS_START[2]] + (CaseLinesFrom(packets, 0) + DefaultLines()))
                                   + (["}"] + ReaderLinesFrom(packets, 0))))
  }

  lemma FileIsItsLines(packets: seq<Packet>)
    ensures ProcessCpp(packets) == Unlines(TopTexts(PROCESS_CPP_TOP) + FunctionLines(packets))
  {
    hide Unlines, TopTexts, CaseLinesFrom, ReaderLinesFrom;
    var top, cases, readers := TopTexts(PROCESS_CPP_TOP), CaseLinesFrom(packets, 0), ReaderLinesFrom(packets, 0);
    UnlinesAppend(top, PROCESS_START);
    UnlinesAppend(top + PROCESS_START, cases);
    UnlinesAppend(top + PROCESS_START + cases, PROCESS_END);
    UnlinesAppend(top + PROCESS_START + cases + PROCESS_END, readers);
    assert top + PROCESS_START + cases + PROCESS_END + readers == top + FunctionLines(packets);
  }

  /** The generated dispatch file, read from its text: the switch sends type i to the i-th packet's dispatcher and any
      other type nowhere, and the dispatchers are those of the packets. */
  lemma ProcessCppIsReadBack(packets: seq<Packet>)
    requires AllPlain(packets)
    ensures var top := [Include("stdafx.h"), Include("PacketProcess_Auto.h"), Include("PacketHandler_Auto.h"), Blank,
                        Include("Util/SystemLogger.h"), Include("Util/CPacket.h"), Include("NetLib/Session.h"),
                        Include("Contents/ContentsProcess.h"), Blank, Using("SystemLogger::LOG_LEVEL"), Blank];
            ParseProcessCpp(ProcessCpp(packets))
            == Some(ProcessFile(top, CasesFrom(packets, 0), DispatchersFrom(packets, 0)))
  {
    hide ParseTop, ParseCases, ParseDispatchers, LinesOf, TopTexts, CaseLinesFrom, ReaderLinesFrom;
    hide TakeBody, OneLine, Between;
    var top, rest := TopTexts(PROCESS_CPP_TOP), FunctionLines(packets);
    var cases := CaseLinesFrom(packets, 0) + DefaultLines();
    FileIsItsLines(packets);
    ProcessTopIsLines();
    ProcessStartIsReadBack();
    CasesAreReadBack(packets, 0);
    DispatchersAreReadBack(packets, 0);
    BracesAreLines();
    LinesAreReadBack(top + rest);
    NoTopLine(rest[0]);
    TopIsReadBack(PROCESS_CPP_TOP, rest);
    var body := [PROCESS_START[2]] + cases;
    BodyIsTaken(body, ReaderLinesFrom(packets, 0));
    assert rest[1..] == ["{"] + (body + (["}"] + ReaderLinesFrom(packets, 0)));
    assert body[1..] == cases;
  }

  // ---------------------------------------------------------------- what the file does

  function CaseOf(cases: seq<Case>, typ: nat): Option<string> {
    if cases == [] then None
    else if cases[0].typ == typ then Some(cases[0].caseName)
    else CaseOf(cases[1..], typ)
  }

  function FunctionOf(dispatchers: seq<Dispatch>, caseName: string): seq<ReaderStmt> {
    if dispatchers == [] then []
    else if dispatchers[0].caseName == caseName then dispatchers[0].body
    else FunctionOf(dispatchers[1..], caseName)
  }

  /** Process, as the file has it. */
  function RunFile(f: ProcessFile, typ: nat, junk: seq<Value>, b: Buf): seq<Call>
    requires Fine(b)
  {
    match CaseOf(f.cases, typ)
    case None => []
    case Some(caseName) => RunReader(FunctionOf(f.dispatchers, caseName), Reading(map[], junk, b, [])).calls
  }

  lemma {:induction false} CasesMean(packets: seq<Packet>, i: nat, typ: nat)
    requires i <= |packets|
    ensures CaseOf(CasesFrom(packets, i), typ)
         == if i <= typ < |packets| then Some(packets[typ].caseName) else None
    decreases |packets| - i
  {
    if i < |packets| {
      CasesMean(packets, i + 1, typ);
    }
  }

  lemma {:induction false} DispatchersMean(packets: seq<Packet>, i: nat, caseName: string)
    requires i <= |packets|
    ensures FunctionOf(DispatchersFrom(packets, i), caseName) == Dispatcher(packets[i..], caseName)
    decreases |packets| - i
  {
    hide ReaderOf;
    if i < |packets| {
      DispatchersMean(packets, i + 1, caseName);
      assert packets[i..][1..] == packets[i + 1..];
    }
  }

  /** Running what the text of the file says is Process. */
  lemma TextRunsProcess(packets: seq<Packet>, typ: nat, junk: seq<Value>, b: Buf)
    requires AllPlain(packets) && Fine(b)
    ensures var f := ParseProcessCpp(ProcessCpp(packets));
            f.Some? && RunFile(f.value, typ, junk, b) == Process(packets, typ, junk, b)
  {
    hide ParseProcessCpp, ProcessCpp, RunReader;
    ProcessCppIsReadBack(packets);
    CasesMean(packets, 0, typ);
    assert packets[0..] == packets;
    if typ < |packets| {
      DispatchersMean(packets, 0, packets[typ].caseName);
    }
  }
}
