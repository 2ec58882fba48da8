/** The text of the generated files, as lines. Each generator method builds its file as the original does, piece by
    piece, and is proved to print the statements of PacketCode; TextReading reads the files back. */
module PacketText {
  import opened PacketSheet
  import opened PacketCode

  // ---------------------------------------------------------------- lines

  function Unlines(lines: seq<string>): string {
    if lines == [] then "" else lines[0] + "\n" + Unlines(lines[1..])
  }

  lemma {:induction false} UnlinesAppend(a: seq<string>, b: seq<string>)
    ensures Unlines(a + b) == Unlines(a) + Unlines(b)
  {
    if a == [] {
      assert a + b == b;
    } else {
      UnlinesAppend(a[1..], b);
      assert (a + b)[1..] == a[1..] + b;
    }
  }

  /** One line more, with `rest` still to come. */
  lemma OneLineMore(text: string, line: string, rest: seq<string>)
    ensures text + Unlines([line] + rest) == (text + line + "\n") + Unlines(rest)
  {
    assert ([line] + rest)[1..] == rest;
  }

  // ---------------------------------------------------------------- printing statements

  function Digit(d: nat): char
    requires d < 10
  {
    ['0', '1', '2', '3', '4', '5', '6', '7', '8', '9'][d]
  }

  function Decimal(n: nat): string {
    if n < 10 then [Digit(n)] else Decimal(n / 10) + [Digit(n % 10)]
  }

  /** string.Join. */
  function Join(sep: string, parts: seq<string>): string {
    if parts == [] then ""
    else if |parts| == 1 then parts[0]
    else parts[0] + sep + Join(sep, parts[1..])
  }

  function SizeTexts(types: seq<string>): seq<string> {
    if types == [] then [] else ["sizeof(" + types[0] + ")"] + SizeTexts(types[1..])
  }

  /** Each part behind a mark. */
  function Marked(mark: string, parts: seq<string>): string {
    if parts == [] then "" else mark + parts[0] + Marked(mark, parts[1..])
  }

  function ParamText(f: Field): string { ", " + f.typ + " " + f.name }

  function ParamTexts(fields: seq<Field>): string {
    if fields == [] then "" else ParamText(fields[0]) + ParamTexts(fields[1..])
  }

  function SignatureText(m: Maker): string { "void mp_" + m.caseName + "(CPacket& packet" + ParamTexts(m.params) + ")" }

  function MakerStmtLine(s: MakerStmt): string {
    match s
    case DeclareHeader => "\tPktHeader pktHeader;"
    case SetCode => "\tpktHeader.Code = 0x98; "
    case SetType(index) => "\tpktHeader.Type = " + Decimal(index) + ";"
    case SetLen(types) => "\tpktHeader.Len = " + (if types == [] then "0" else Join(" + ", SizeTexts(types))) + ";"
    case ClearPacket => "\tpacket.Clear();"
    case PutHeader => "\tpacket.PutData(" + "(char*)&pktHeader, sizeof(PktHeader)" + ");"
    case ShiftIn(names) => "\tpacket" + Marked(" << ", names) + ";"
  }

  function MakerStmtLines(body: seq<MakerStmt>): (lines: seq<string>)
    ensures |lines| == |body| && forall i :: 0 <= i < |body| ==> lines[i] == MakerStmtLine(body[i])
  {
    if body == [] then [] else [MakerStmtLine(body[0])] + MakerStmtLines(body[1..])
  }

  /** A function and the blank line behind it. */
  function MakerLines(m: Maker): seq<string> {
    [SignatureText(m), "{"] + (MakerStmtLines(m.body) + ["}", ""])
  }

  function ReaderStmtLine(s: ReaderStmt): string {
    match s
    case Declare(f) => "\t" + (f.typ + " " + f.name) + ";"
    case ShiftOut(name) => "\tpacket >> " + name + ";"
    case CallHandler(caseName, names) => "\thandler.On" + (caseName + "(sessionId, " + Join(", ", names)) + ");"
  }

  function ReaderStmtLines(body: seq<ReaderStmt>): (lines: seq<string>)
    ensures |lines| == |body| && forall i :: 0 <= i < |body| ==> lines[i] == ReaderStmtLine(body[i])
  {
    if body == [] then [] else [ReaderStmtLine(body[0])] + ReaderStmtLines(body[1..])
  }

  function ReaderSignature(p: Packet): string {
    "void PacketProcess_Auto::Dispatch" + p.caseName + "(uint32_t sessionId, CPacket& packet)"
  }

  function ReaderLines(p: Packet): seq<string> {
    [ReaderSignature(p), "{"] + (ReaderStmtLines(ReaderOf(p)) + ["}"])
  }

  function CaseLine(p: Packet, i: nat): string {
    "\tcase " + (Decimal(i) + (": Dispatch" + p.caseName)) + "(sessionId, packet); break;"
  }

  // ---------------------------------------------------------------- printing files

  /** A line before the functions. */
  datatype TopLine = Pragma(name: string) | Include(file: string) | Using(name: string) | Blank

  function TopText(t: TopLine): string {
    match t
    case Pragma(name) => "#pragma " + name
    case Include(file) => "#include \"" + file + "\""
    case Using(name) => "using enum " + name + ";"
    case Blank => ""
  }

  function TopTexts(top: seq<TopLine>): (lines: seq<string>)
    ensures |lines| == |top| && forall i :: 0 <= i < |top| ==> lines[i] == TopText(top[i])
  {
    if top == [] then [] else [TopText(top[0])] + TopTexts(top[1..])
  }

  const MAKER_HEADER_TOP := [Pragma("once"), Include("Util/CPacket.h")]
  const MAKER_CPP_TOP := [Include("stdafx.h"), Include("PacketMaker_Auto.h"), Include("define.h"), Blank]
  const PROCESS_CPP_TOP :=
    [Include("stdafx.h"), Include("PacketProcess_Auto.h"), Include("PacketHandler_Auto.h"), Blank,
     Include("Util/SystemLogger.h"), Include("Util/CPacket.h"), Include("NetLib/Session.h"),
     Include("Contents/ContentsProcess.h"), Blank, Using("SystemLogger::LOG_LEVEL"), Blank]
  const PROCESS_START :=
    ["void PacketProcess_Auto::Process(" + ("uint16_t type, " + "uint32_t sessionId, CPacket& packet") + ")", "{",
     "    switch (type) {"]
  const PROCESS_END :=
    ["    default:",
     "        SLog(ERROR_LEVEL, " + ("L\"Packet Process default case # " + "type is (%d)\", type") + ");",
     "        break;", "    }", "}"]

  // The lines for the packets from number i on.

  function HeaderLinesFrom(packets: seq<Packet>, i: nat): seq<string>
    requires i <= |packets|
    decreases |packets| - i
  {
    if i == |packets| then [] else [SignatureText(MakerOf(packets[i], i)) + ";"] + HeaderLinesFrom(packets, i + 1)
  }

  function MakerLinesFrom(packets: seq<Packet>, i: nat): seq<string>
    requires i <= |packets|
    decreases |packets| - i
  {
    if i == |packets| then [] else MakerLines(MakerOf(packets[i], i)) + MakerLinesFrom(packets, i + 1)
  }

  function CaseLinesFrom(packets: seq<Packet>, i: nat): seq<string>
    requires i <= |packets|
    decreases |packets| - i
  {
    if i == |packets| then [] else [CaseLine(packets[i], i)] + CaseLinesFrom(packets, i + 1)
  }

  function ReaderLinesFrom(packets: seq<Packet>, i: nat): seq<string>
    requires i <= |packets|
    decreases |packets| - i
  {
    if i == |packets| then [] else ReaderLines(packets[i]) + ReaderLinesFrom(packets, i + 1)
  }

  function MakerHeader(packets: seq<Packet>): string {
    Unlines(TopTexts(MAKER_HEADER_TOP)) + Unlines(HeaderLinesFrom(packets, 0))
  }

  function MakerCpp(packets: seq<Packet>): string {
    Unlines(TopTexts(MAKER_CPP_TOP)) + Unlines(MakerLinesFrom(packets, 0))
  }

  function ProcessCpp(packets: seq<Packet>): string {
    Unlines(TopTexts(PROCESS_CPP_TOP)) + Unlines(PROCESS_START) + Unlines(CaseLinesFrom(packets, 0))
    + Unlines(PROCESS_END) + Unlines(ReaderLinesFrom(packets, 0))
  }

  // ---------------------------------------------------------------- the generator

  lemma {:induction false} ParamTextsGrow(fields: seq<Field>, n: nat)
    requires n < |fields|
    ensures ParamTexts(fields[..n + 1]) == ParamTexts(fields[..n]) + ParamText(fields[n])
  {
    if n == 0 {
      assert fields[..1][1..] == [] && fields[..0] == [];
    } else {
      ParamTextsGrow(fields[1..], n - 1);
      assert fields[..n + 1][1..] == fields[1..][..n] && fields[..n][1..] == fields[1..][..n - 1];
    }
  }

  lemma {:induction false} MarkedGrow(mark: string, parts: seq<string>, n: nat)
    requires n < |parts|
    ensures Marked(mark, parts[..n + 1]) == Marked(mark, parts[..n]) + (mark + parts[n])
  {
    if n == 0 {
      assert parts[..1][1..] == [] && parts[..0] == [];
    } else {
      MarkedGrow(mark, parts[1..], n - 1);
      assert parts[..n + 1][1..] == parts[1..][..n] && parts[..n][1..] == parts[1..][..n - 1];
    }
  }

  /** The signature of a maker, built as the source does: the name, then a parameter for each field. */
  method Signature(p: Packet) returns (line: string)
    ensures line == "void mp_" + p.caseName + "(CPacket& packet" + ParamTexts(p.fields)
  {
    line := "void mp_" + p.caseName + "(CPacket& packet";
    var i := 0;
    while i < |p.fields|
      invariant 0 <= i <= |p.fields|
      invariant line == "void mp_" + p.caseName + "(CPacket& packet" + ParamTexts(p.fields[..i])
    {
      ParamTextsGrow(p.fields, i);
      line := line + ", " + p.fields[i].typ + " " + p.fields[i].name;
      i := i + 1;
    }
    assert p.fields[..i] == p.fields;
  }

  class CodeGenerator {
    const clientPackets: seq<Packet>
    const serverPackets: seq<Packet>

    constructor (client: seq<Packet>, server: seq<Packet>)
      ensures clientPackets == client && serverPackets == server
    {
      clientPackets, serverPackets := client, server;
    }

    method GenerateMakerHeader() returns (sb: string)
      ensures sb == MakerHeader(serverPackets)
    {
      hide SignatureText, TopTexts;
      sb := Unlines(TopTexts(MAKER_HEADER_TOP));
      var i := 0;
      while i < |serverPackets|
        invariant 0 <= i <= |serverPackets|
        invariant sb + Unlines(HeaderLinesFrom(serverPackets, i)) == MakerHeader(serverPackets)
      {
        var line := Signature(serverPackets[i]);
        line := line + ")" + ";";
        SignatureDone(serverPackets[i], i, line);
        OneLineMore(sb, line, HeaderLinesFrom(serverPackets, i + 1));
        sb := sb + line + "\n";
        i := i + 1;
      }
      Finished(sb);
    }

    /** The definition of a maker, up to its closing brace. */
    method MakerFunction(p: Packet, typeIndex: nat) returns (func: string)
      ensures func + "\n" + "\n" == Unlines(MakerLines(MakerOf(p, typeIndex)))
    {
      hide MakerStmtLine, SignatureText;
      var line := Signature(p);
      func := line + ")\n{\n";
      TopOfMaker(p, typeIndex, line, func);
      func := MakerStart(p, typeIndex, func);
      func := MakerChain(p, func);
      func := func + "}";
      EndOfMaker(func);
    }

    /** The statements up to the one that writes the header. */
    method MakerStart(p: Packet, typeIndex: nat, top: string) returns (func: string)
      ensures func + Unlines([MakerStmtLine(ShiftIn(NamesOf(p.fields))), "}", ""])
           == top + Unlines(MakerStmtLines(MakerOf(p, typeIndex).body) + ["}", ""])
    {
      hide MakerStmtLine;
      MakerBodyLines(p, typeIndex);
      ghost var lines := MakerStmtLines(MakerOf(p, typeIndex).body) + ["}", ""];
      StepsOfMaker(top, lines);
      func := top + MakerStmtLine(DeclareHeader) + "\n";
      func := func + MakerStmtLine(SetCode) + "\n";
      func := func + MakerStmtLine(SetType(typeIndex)) + "\n";
      func := func + MakerStmtLine(SetLen(TypesOf(p.fields))) + "\n";
      func := func + MakerStmtLine(ClearPacket) + "\n";
      func := func + MakerStmtLine(PutHeader) + "\n";
    }

    /** The chain of shifts, one for each field. */
    method MakerChain(p: Packet, before: string) returns (func: string)
      ensures func == before + MakerStmtLine(ShiftIn(NamesOf(p.fields))) + "\n"
    {
      var chain := "\tpacket";
      var i := 0;
      while i < |p.fields|
        invariant 0 <= i <= |p.fields|
        invariant chain == "\tpacket" + Marked(" << ", NamesOf(p.fields)[..i])
      {
        MarkedGrow(" << ", NamesOf(p.fields), i);
        chain := chain + (" << " + p.fields[i].name);
        i := i + 1;
      }
      assert NamesOf(p.fields)[..i] == NamesOf(p.fields);
      func := before + (chain + ";") + "\n";
    }

    method GenerateMakerCpp() returns (sb: string)
      ensures sb == MakerCpp(serverPackets)
    {
      hide MakerLines, TopTexts;
      sb := Unlines(TopTexts(MAKER_CPP_TOP));
      var typeIndex, i := 0, 0;
      while i < |serverPackets|
        invariant 0 <= i <= |serverPackets| && typeIndex == i
        invariant sb + Unlines(MakerLinesFrom(serverPackets, i)) == MakerCpp(serverPackets)
      {
        var func := MakerFunction(serverPackets[i], typeIndex);
        UnlinesAppend(MakerLines(MakerOf(serverPackets[i], i)), MakerLinesFrom(serverPackets, i + 1));
        sb := sb + (func + "\n" + "\n");
        typeIndex := typeIndex + 1;
        i := i + 1;
      }
      Finished(sb);
    }

    method DispatchFunction(p: Packet) returns (func: string)
      ensures func == Unlines(ReaderLines(p))
    {
      hide ReaderStmtLine, ReaderSignature;
      ghost var call, end := [CallHandler(p.caseName, NamesOf(p.fields))], ["}"];
      func := ReaderSignature(p) + "\n" + "{\n";
      TopOfReader(p, func);
      var i := 0;
      assert p.fields[i..] == p.fields;
      while i < |p.fields|
        invariant 0 <= i <= |p.fields|
        invariant func + Unlines(ReaderStmtLines(Declares(p.fields[i..]) + (ShiftOuts(p.fields) + call)) + end)
               == Unlines(ReaderLines(p))
      {
        NextReaderLine(func, Declare(p.fields[i]), Declares(p.fields[i + 1..]) + (ShiftOuts(p.fields) + call), end);
        DeclaresFrom(p.fields, i, ShiftOuts(p.fields) + call);
        func := func + ReaderStmtLine(Declare(p.fields[i])) + "\n";
        i := i + 1;
      }
      assert Declares(p.fields[i..]) + (ShiftOuts(p.fields) + call) == ShiftOuts(p.fields) + call;
      i := 0;
      while i < |p.fields|
        invariant 0 <= i <= |p.fields|
        invariant func + Unlines(ReaderStmtLines(ShiftOuts(p.fields[i..]) + call) + end) == Unlines(ReaderLines(p))
      {
        NextReaderLine(func, ShiftOut(p.fields[i].name), ShiftOuts(p.fields[i + 1..]) + call, end);
        ShiftOutsFrom(p.fields, i, call);
        func := func + ReaderStmtLine(ShiftOut(p.fields[i].name)) + "\n";
        i := i + 1;
      }
      NextReaderLine(func, call[0], [], end);
      assert ShiftOuts(p.fields[i..]) + call == [call[0]] + [];
      func := func + ReaderStmtLine(CallHandler(p.caseName, NamesOf(p.fields))) + "\n";
      EndOfReader(func);
      func := func + "}\n";
    }

    method GenerateProcessCpp() returns (sb: string)
      ensures sb == ProcessCpp(clientPackets)
    {
      hide TopTexts;
      sb := Unlines(TopTexts(PROCESS_CPP_TOP)) + Unlines(PROCESS_START);
      sb := SwitchLines(sb);
      sb := sb + Unlines(PROCESS_END);
      sb := DispatchFunctions(sb);
    }

    method SwitchLines(top: string) returns (sb: string)
      ensures sb == top + Unlines(CaseLinesFrom(clientPackets, 0))
    {
      hide CaseLine;
      sb := top;
      var i := 0;
      while i < |clientPackets|
        invariant 0 <= i <= |clientPackets|
        invariant sb + Unlines(CaseLinesFrom(clientPackets, i)) == top + Unlines(CaseLinesFrom(clientPackets, 0))
      {
        OneLineMore(sb, CaseLine(clientPackets[i], i), CaseLinesFrom(clientPackets, i + 1));
        sb := sb + CaseLine(clientPackets[i], i) + "\n";
        i := i + 1;
      }
      Finished(sb);
    }

    method DispatchFunctions(top: string) returns (sb: string)
      ensures sb == top + Unlines(ReaderLinesFrom(clientPackets, 0))
    {
      hide ReaderLines;
      sb := top;
      var i := 0;
      while i < |clientPackets|
        invariant 0 <= i <= |clientPackets|
        invariant sb + Unlines(ReaderLinesFrom(clientPackets, i)) == top + Unlines(ReaderLinesFrom(clientPackets, 0))
      {
        var func := DispatchFunction(clientPackets[i]);
        UnlinesAppend(ReaderLines(clientPackets[i]), ReaderLinesFrom(clientPackets, i + 1));
        sb := sb + func;
        i := i + 1;
      }
      Finished(sb);
    }
  }

  lemma Finished(text: string)
    ensures text + Unlines([]) == text
  {
  }

  lemma SignatureDone(p: Packet, index: nat, line: string)
    requires line == "void mp_" + p.caseName + "(CPacket& packet" + ParamTexts(p.fields) + ")" + ";"
    ensures line == SignatureText(MakerOf(p, index)) + ";"
  {
  }

  lemma TopOfMaker(p: Packet, index: nat, line: string, top: string)
    requires line == "void mp_" + p.caseName + "(CPacket& packet" + ParamTexts(p.fields) && top == line + ")\n{\n"
    ensures top + Unlines(MakerStmtLines(MakerOf(p, index).body) + ["}", ""])
         == Unlines(MakerLines(MakerOf(p, index)))
  {
    var sig := SignatureText(MakerOf(p, index));
    assert sig == line + ")";
    hide SignatureText, MakerStmtLine;
    var rest := MakerStmtLines(MakerOf(p, index).body) + ["}", ""];
    assert top == sig + "\n" + "{" + "\n";
    OneLineMore("", sig, ["{"] + rest);
    OneLineMore(sig + "\n", "{", rest);
    assert [sig] + (["{"] + rest) == MakerLines(MakerOf(p, index));
    assert "" + sig + "\n" == sig + "\n";
  }

  lemma MakerBodyLines(p: Packet, index: nat)
    ensures MakerStmtLines(MakerOf(p, index).body) + ["}", ""] ==
            [MakerStmtLine(DeclareHeader), MakerStmtLine(SetCode), MakerStmtLine(SetType(index)),
             MakerStmtLine(SetLen(TypesOf(p.fields))), MakerStmtLine(ClearPacket), MakerStmtLine(PutHeader),
             MakerStmtLine(ShiftIn(NamesOf(p.fields))), "}", ""]
  {
    hide MakerStmtLine;
  }

  lemma LineAt(text: string, l: seq<string>, k: nat)
    requires k < |l|
    ensures text + Unlines(l[k..]) == (text + l[k] + "\n") + Unlines(l[k + 1..])
  {
    assert l[k..] == [l[k]] + l[k + 1..];
    OneLineMore(text, l[k], l[k + 1..]);
  }

  lemma ThreeLines(text: string, l: seq<string>, k: nat)
    requires k + 3 <= |l|
    ensures text + Unlines(l[k..]) == (text + l[k] + "\n" + l[k + 1] + "\n" + l[k + 2] + "\n") + Unlines(l[k + 3..])
  {
    hide Unlines;
    var t1 := text + l[k] + "\n";
    var t2 := t1 + l[k + 1] + "\n";
    LineAt(text, l, k);
    LineAt(t1, l, k + 1);
    LineAt(t2, l, k + 2);
  }

  lemma StepsOfMaker(top: string, l: seq<string>)
    requires |l| == 9
    ensures top + Unlines(l)
         == (top + l[0] + "\n" + l[1] + "\n" + l[2] + "\n" + l[3] + "\n" + l[4] + "\n" + l[5] + "\n")
          + Unlines([l[6], l[7], l[8]])
  {
    hide Unlines;
    ThreeLines(top, l, 0);
    ThreeLines(top + l[0] + "\n" + l[1] + "\n" + l[2] + "\n", l, 3);
    assert l[0..] == l && l[6..] == [l[6], l[7], l[8]];
  }

  lemma EndOfMaker(func: string)
    requires |func| > 0
    ensures func + "\n" + "\n" == func[..|func| - 1] + Unlines([func[|func| - 1..], ""])
  {
    assert [func[|func| - 1..], ""][1..] == [""] && [""][1..] == [];
  }

  lemma TopOfReader(p: Packet, top: string)
    requires top == ReaderSignature(p) + "\n" + "{\n"
    ensures top + Unlines(ReaderStmtLines(ReaderOf(p)) + ["}"]) == Unlines(ReaderLines(p))
  {
    var sig, rest := ReaderSignature(p), ReaderStmtLines(ReaderOf(p)) + ["}"];
    hide ReaderSignature, ReaderStmtLine;
    OneLineMore("", sig, ["{"] + rest);
    OneLineMore(sig + "\n", "{", rest);
    assert [sig] + (["{"] + rest) == ReaderLines(p);
    assert "" + sig + "\n" == sig + "\n";
    assert sig + "\n" + "{" + "\n" == top;
  }

  lemma NextReaderLine(func: string, s: ReaderStmt, rest: seq<ReaderStmt>, end: seq<string>)
    ensures func + Unlines(ReaderStmtLines([s] + rest) + end)
         == (func + ReaderStmtLine(s) + "\n") + Unlines(ReaderStmtLines(rest) + end)
  {
    hide ReaderStmtLine;
    assert ([s] + rest)[1..] == rest;
    assert ReaderStmtLines([s] + rest) + end == [ReaderStmtLine(s)] + (ReaderStmtLines(rest) + end);
    OneLineMore(func, ReaderStmtLine(s), ReaderStmtLines(rest) + end);
  }

  lemma DeclaresFrom(fields: seq<Field>, i: nat, rest: seq<ReaderStmt>)
    requires i < |fields|
    ensures Declares(fields[i..]) + rest == [Declare(fields[i])] + (Declares(fields[i + 1..]) + rest)
  {
    assert fields[i..][1..] == fields[i + 1..];
  }

  lemma ShiftOutsFrom(fields: seq<Field>, i: nat, rest: seq<ReaderStmt>)
    requires i < |fields|
    ensures ShiftOuts(fields[i..]) + rest == [ShiftOut(fields[i].name)] + (ShiftOuts(fields[i + 1..]) + rest)
  {
    assert fields[i..][1..] == fields[i + 1..];
  }

  lemma EndOfReader(func: string)
    ensures func + Unlines(ReaderStmtLines([]) + ["}"]) == func + "}\n"
  {
    assert ReaderStmtLines([]) + ["}"] == ["}"];
    assert ["}"][1..] == [];
  }
}
