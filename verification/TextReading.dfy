/** A reader for generated text that goes by its characters alone: pieces of lines, numbers, lines, signatures, the
    lines before the functions, and the whole maker header. CppReading reads the other files with it. */
module TextReading {
  import opened Bytes
  import opened CPacketBuffer
  import opened PacketSheet
  import opened PacketCode
  import opened PacketText
  import opened Wrappers

  // ---------------------------------------------------------------- pieces of text

  /** The place of the first character of `stops` in s, or the end. */
  function First(s: string, stops: set<char>): (n: nat)
    ensures n <= |s| && (n < |s| ==> s[n] in stops)
    ensures forall i :: 0 <= i < n ==> s[i] !in stops
  {
    if s == "" || s[0] in stops then 0 else 1 + First(s[1..], stops)
  }

  /** The place of the last blank in s. */
  function LastBlank(s: string): (n: Option<nat>)
    ensures n.Some? ==> n.value < |s|
  {
    if s == "" then None else if s[|s| - 1] == ' ' then Some(|s| - 1) else LastBlank(s[..|s| - 1])
  }

  /** The text behind `prefix`. */
  function Behind(s: string, prefix: string): (r: Option<string>)
    ensures r.Some? ==> |r.value| == |s| - |prefix|
  {
    if |prefix| <= |s| && s[..|prefix|] == prefix then Some(s[|prefix|..]) else None
  }

  /** The text between `prefix` and `suffix`, which are its beginning and its end. */
  function Between(s: string, prefix: string, suffix: string): Option<string> {
    if |prefix| + |suffix| <= |s| && s[..|prefix|] == prefix && s[|s| - |suffix|..] == suffix
    then Some(s[|prefix|..|s| - |suffix|]) else None
  }

  predicate Free(s: string, stops: set<char>) { forall i :: 0 <= i < |s| ==> s[i] !in stops }

  lemma {:induction false} FirstBehind(a: string, b: string, stops: set<char>)
    requires Free(a, stops)
    ensures First(a + b, stops) == |a| + First(b, stops)
  {
    if a == "" {
      assert a + b == b;
    } else {
      FirstBehind(a[1..], b, stops);
      assert (a + b)[1..] == a[1..] + b;
    }
  }

  /** What stands before the first stop is found there. */
  lemma Taken(a: string, b: string, stops: set<char>)
    requires Free(a, stops) && (b == "" || b[0] in stops)
    ensures var n := First(a + b, stops); n == |a| && (a + b)[..n] == a && (a + b)[n..] == b
  {
    FirstBehind(a, b, stops);
  }

  lemma {:induction false} LastBlankBefore(a: string, b: string)
    requires Free(b, {' '})
    ensures LastBlank(a + " " + b) == Some(|a|)
    decreases |b|
  {
    var s := a + " " + b;
    if b != "" {
      assert s[..|s| - 1] == a + " " + b[..|b| - 1];
      LastBlankBefore(a, b[..|b| - 1]);
    }
  }

  lemma BehindPrefix(prefix: string, s: string)
    ensures Behind(prefix + s, prefix) == Some(s)
  {
    assert (prefix + s)[..|prefix|] == prefix && (prefix + s)[|prefix|..] == s;
  }

  lemma BetweenBoth(prefix: string, s: string, suffix: string)
    ensures Between(prefix + s + suffix, prefix, suffix) == Some(s)
  {
    var t := prefix + s + suffix;
    assert t[..|prefix|] == prefix && t[|prefix| + |s|..] == suffix && t[|prefix|..|prefix| + |s|] == s;
  }

  /** A text that differs from `prefix` in one place does not begin with it. */
  lemma NotBetween(s: string, prefix: string, suffix: string, k: nat)
    requires k < |prefix| && k < |s| && s[k] != prefix[k]
    ensures Between(s, prefix, suffix) == None
  {
    assert |prefix| <= |s| ==> s[..|prefix|][k] == s[k];
  }

  // ---------------------------------------------------------------- numbers

  function DigitOf(c: char): Option<nat> {
    if '0' <= c <= '9' then Some(c as int - '0' as int) else None
  }

  function ParseNumber(s: string): Option<nat> {
    if s == "" then None
    else
      var d := DigitOf(s[|s| - 1]);
      if d.None? || |s| == 1 then d
      else
        match ParseNumber(s[..|s| - 1])
        case None => None
        case Some(n) => Some(10 * n + d.value)
  }

  lemma DigitIsReadBack(d: nat)
    requires d < 10
    ensures DigitOf(Digit(d)) == Some(d) && '0' <= Digit(d) <= '9'
  {
  }

  predicate IsNumber(s: string) { forall i :: 0 <= i < |s| ==> '0' <= s[i] <= '9' }

  lemma {:induction false} NumberIsReadBack(n: nat)
    ensures ParseNumber(Decimal(n)) == Some(n) && IsNumber(Decimal(n)) && Decimal(n) != ""
  {
    hide Digit, DigitOf;
    DigitIsReadBack(n % 10);
    if n >= 10 {
      NumberIsReadBack(n / 10);
      OneMoreDigit(Decimal(n / 10), Digit(n % 10), n / 10, n % 10);
    }
  }

  lemma OneMoreDigit(s: string, c: char, n: nat, d: nat)
    requires ParseNumber(s) == Some(n) && IsNumber(s) && s != "" && DigitOf(c) == Some(d)
    ensures ParseNumber(s + [c]) == Some(10 * n + d) && IsNumber(s + [c])
  {
    assert (s + [c])[..|s|] == s;
  }

  // ---------------------------------------------------------------- lines

  /** A text in which every line is ended. */
  function LinesOf(s: string): Option<seq<string>>
    decreases |s|
  {
    if s == "" then Some([])
    else
      var n := First(s, {'\n'});
      if n == |s| then None
      else
        match LinesOf(s[n + 1..])
        case None => None
        case Some(lines) => Some([s[..n]] + lines)
  }

  predicate OneLine(line: string) { Free(line, {'\n'}) }

  predicate AllLines(lines: seq<string>) { forall i :: 0 <= i < |lines| ==> OneLine(lines[i]) }

  lemma {:induction false} LinesAreReadBack(lines: seq<string>)
    requires AllLines(lines)
    ensures LinesOf(Unlines(lines)) == Some(lines)
    decreases |lines|
  {
    if lines != [] {
      var line, rest := lines[0], lines[1..];
      LinesAreReadBack(rest);
      assert Unlines(lines) == line + ("\n" + Unlines(rest)) by {
        assert line + "\n" + Unlines(rest) == line + ("\n" + Unlines(rest));
      }
      Taken(line, "\n" + Unlines(rest), {'\n'});
      assert ("\n" + Unlines(rest))[1..] == Unlines(rest);
      assert Unlines(lines)[|line| + 1..] == Unlines(rest);
      assert lines == [line] + rest;
    }
  }

  lemma BothLines(a: string, b: string)
    requires OneLine(a) && OneLine(b)
    ensures OneLine(a + b)
  {
  }

  lemma WrappedIsLine(prefix: string, s: string, suffix: string)
    requires OneLine(prefix) && OneLine(s) && OneLine(suffix)
    ensures OneLine(prefix + s + suffix)
  {
  }

  // ---------------------------------------------------------------- signatures

  /** The field printed as `word`, with the blank between type and name at k. */
  function FieldAt(word: string, k: nat): Field
    requires k < |word|
  {
    Field(word[..k], word[k + 1..])
  }

  /** The fields of a parameter list, up to the closing parenthesis. */
  function ParseParams(s: string): Option<seq<Field>>
    decreases |s|
  {
    if s == ")" then Some([])
    else
      match Behind(s, ", ")
      case None => None
      case Some(r) =>
        var n := First(r, {',', ')'});
        var k := LastBlank(r[..n]);
        if k.None? then None
        else
          match ParseParams(r[n..])
          case None => None
          case Some(fields) => Some([FieldAt(r[..n], k.value)] + fields)
  }

  /** The first line of a maker. */
  function ParseSignature(s: string): Option<Packet> {
    match Behind(s, "void mp_")
    case None => None
    case Some(r) =>
      var n := First(r, {'('});
      match Behind(r[n..], "(CPacket& packet")
      case None => None
      case Some(params) =>
        match ParseParams(params)
        case None => None
        case Some(fields) => Some(Packet(r[..n], fields))
  }

  /** Names without the characters the printed form uses: a case has no parenthesis, a type no comma or closing one,
      a name no blank either, and nothing a line break. A type may be several words. */
  predicate Printable(p: Packet) {
    && Free(p.caseName, {'(', '\n'})
    && forall i :: 0 <= i < |p.fields| ==> PrintableField(p.fields[i])
  }

  predicate PrintableField(f: Field) { Free(f.typ, {',', ')', '\n'}) && Free(f.name, {',', ')', '\n', ' '}) }

  lemma WordIsRead(f: Field)
    requires PrintableField(f)
    ensures var word := f.typ + " " + f.name;
            LastBlank(word) == Some(|f.typ|) && FieldAt(word, |f.typ|) == f && Free(word, {',', ')'}) && OneLine(word)
  {
    LastBlankBefore(f.typ, f.name);
  }

  lemma OneParam(word: string, tail: string, f: Field)
    requires Free(word, {',', ')'}) && tail != "" && tail[0] in {',', ')'}
    requires LastBlank(word).Some? && FieldAt(word, LastBlank(word).value) == f
    requires ParseParams(tail).Some?
    ensures ParseParams(", " + (word + tail)) == Some([f] + ParseParams(tail).value)
  {
    BehindPrefix(", ", word + tail);
    Taken(word, tail, {',', ')'});
    assert (", " + (word + tail))[0] == ',' && ")"[0] == ')';
  }

  lemma {:induction false} ParamsAreReadBack(fields: seq<Field>)
    requires forall i :: 0 <= i < |fields| ==> PrintableField(fields[i])
    ensures ParseParams(ParamTexts(fields) + ")") == Some(fields) && OneLine(ParamTexts(fields))
    decreases |fields|
  {
    hide ParseParams, First, LastBlank, FieldAt, PrintableField;
    if fields == [] {
      NoParams();
    } else {
      var f, tail := fields[0], ParamTexts(fields[1..]) + ")";
      ParamsAreReadBack(fields[1..]);
      var word := f.typ + " " + f.name;
      WordIsRead(f);
      StartsWell(fields[1..]);
      OneParam(word, tail, f);
      ParamTextsSplit(fields, word, tail);
      assert fields == [f] + fields[1..];
    }
  }

  lemma NoParams()
    ensures ParseParams(ParamTexts([]) + ")") == Some([])
  {
    assert ParamTexts([]) + ")" == ")";
  }

  lemma ParamTextsSplit(fields: seq<Field>, word: string, tail: string)
    requires fields != [] && word == fields[0].typ + " " + fields[0].name && tail == ParamTexts(fields[1..]) + ")"
    ensures ParamTexts(fields) + ")" == ", " + (word + tail)
    ensures OneLine(word) && OneLine(ParamTexts(fields[1..])) ==> OneLine(ParamTexts(fields))
  {
    var rest := ParamTexts(fields[1..]);
    assert ParamText(fields[0]) == ", " + word;
    assert (", " + word + rest) + ")" == ", " + (word + (rest + ")"));
    if OneLine(word) && OneLine(rest) {
      assert OneLine(", ");
      BothLines(", ", word);
      BothLines(", " + word, rest);
    }
  }

  lemma StartsWell(fields: seq<Field>)
    ensures var tail := ParamTexts(fields) + ")"; tail != "" && tail[0] in {',', ')'}
  {
  }

  lemma SignatureIsReadBack(p: Packet, index: nat)
    requires Printable(p)
    ensures ParseSignature(SignatureText(MakerOf(p, index))) == Some(p) && OneLine(SignatureText(MakerOf(p, index)))
  {
    hide ParseParams, ParamTexts;
    ParamsAreReadBack(p.fields);
    var params := ParamTexts(p.fields) + ")";
    var rest := "(CPacket& packet" + params;
    assert SignatureText(MakerOf(p, index)) == "void mp_" + (p.caseName + rest);
    BehindPrefix("void mp_", p.caseName + rest);
    Taken(p.caseName, rest, {'('});
    BehindPrefix("(CPacket& packet", params);
    SignatureIsOneLine(p, params);
  }

  lemma SignatureIsOneLine(p: Packet, params: string)
    requires Free(p.caseName, {'(', '\n'}) && params == ParamTexts(p.fields) + ")" && OneLine(ParamTexts(p.fields))
    ensures OneLine("void mp_" + (p.caseName + ("(CPacket& packet" + params)))
  {
    hide ParamTexts;
    assert OneLine("void mp_") && OneLine("(CPacket& packet") && OneLine(")");
    BothLines("(CPacket& packet", params);
    BothLines(p.caseName, "(CPacket& packet" + params);
    BothLines("void mp_", p.caseName + ("(CPacket& packet" + params));
  }

  // ---------------------------------------------------------------- the lines before the functions

  function ParseTopLine(s: string): Option<TopLine> {
    match Between(s, "#include \"", "\"")
    case Some(file) => Some(Include(file))
    case None =>
      match Behind(s, "#pragma ")
      case Some(name) => Some(Pragma(name))
      case None =>
        match Between(s, "using enum ", ";")
        case Some(name) => Some(Using(name))
        case None => if s == "" then Some(Blank) else None
  }

  /** As many of them as there are, and what follows. */
  function ParseTop(lines: seq<string>): (r: (seq<TopLine>, seq<string>))
    ensures |r.1| <= |lines|
  {
    if lines == [] then ([], [])
    else
      match ParseTopLine(lines[0])
      case None => ([], lines)
      case Some(t) => var (top, rest) := ParseTop(lines[1..]); ([t] + top, rest)
  }

  lemma TopLineIsReadBack(t: TopLine)
    ensures ParseTopLine(TopText(t)) == Some(t)
  {
    var s := TopText(t);
    match t
    case Include(file) => BetweenBoth("#include \"", file, "\"");
    case Pragma(name) =>
      assert s[1] == 'p';
      NotBetween(s, "#include \"", "\"", 1);
      BehindPrefix("#pragma ", name);
    case Using(name) =>
      assert s[0] == 'u';
      NotBetween(s, "#include \"", "\"", 0);
      assert s[..8][0] == 'u';
      BetweenBoth("using enum ", name, ";");
    case Blank =>
  }

  lemma {:induction false} TopIsReadBack(top: seq<TopLine>, rest: seq<string>)
    requires rest == [] || ParseTopLine(rest[0]).None?
    ensures ParseTop(TopTexts(top) + rest) == (top, rest)
    decreases |top|
  {
    hide ParseTopLine, TopText;
    if top == [] {
      assert TopTexts(top) + rest == rest;
    } else {
      TopLineIsReadBack(top[0]);
      TopIsReadBack(top[1..], rest);
      assert (TopTexts(top) + rest)[1..] == TopTexts(top[1..]) + rest;
      assert top == [top[0]] + top[1..];
    }
  }

  /** A line that begins with a v is not one of them. */
  lemma NoTopLine(s: string)
    requires s != "" && s[0] == 'v'
    ensures ParseTopLine(s) == None
  {
    NotBetween(s, "#include \"", "\"", 0);
    NotBetween(s, "using enum ", ";", 0);
    if 8 <= |s| {
      assert s[..8][0] == 'v';
    }
  }

  // ---------------------------------------------------------------- the maker header

  function ParseDeclarations(lines: seq<string>): Option<seq<Packet>> {
    if lines == [] then Some([])
    else if lines[0] == "" || lines[0][|lines[0]| - 1] != ';' then None
    else
      match ParseSignature(lines[0][..|lines[0]| - 1])
      case None => None
      case Some(p) =>
        match ParseDeclarations(lines[1..])
        case None => None
        case Some(ps) => Some([p] + ps)
  }

  datatype HeaderFile = HeaderFile(top: seq<TopLine>, packets: seq<Packet>)

  function ParseMakerHeader(s: string): Option<HeaderFile> {
    match LinesOf(s)
    case None => None
    case Some(lines) =>
      var (top, rest) := ParseTop(lines);
      match ParseDeclarations(rest)
      case None => None
      case Some(packets) => Some(HeaderFile(top, packets))
  }

  predicate AllPrintable(packets: seq<Packet>) { forall i :: 0 <= i < |packets| ==> Printable(packets[i]) }

  lemma SignatureStarts(p: Packet, index: nat)
    ensures var s := SignatureText(MakerOf(p, index)); s != "" && s[0] == 'v'
  {
  }

  lemma {:induction false} DeclarationsAreReadBack(packets: seq<Packet>, i: nat)
    requires i <= |packets| && AllPrintable(packets)
    ensures var lines := HeaderLinesFrom(packets, i);
            && ParseDeclarations(lines) == Some(packets[i..]) && AllLines(lines)
            && (lines != [] ==> lines[0] != "" && lines[0][0] == 'v')
    decreases |packets| - i
  {
    hide SignatureText, ParseSignature, Printable;
    if i < |packets| {
      var s := SignatureText(MakerOf(packets[i], i));
      SignatureIsReadBack(packets[i], i);
      SignatureStarts(packets[i], i);
      DeclarationsAreReadBack(packets, i + 1);
      assert (s + ";")[..|s|] == s;
      assert OneLine(";");
      BothLines(s, ";");
      assert packets[i..] == [packets[i]] + packets[i + 1..];
    }
  }

  function NameIn(t: TopLine): string {
    match t case Pragma(name) => name case Include(file) => file case Using(name) => name case Blank => ""
  }

  lemma TopIsLine(t: TopLine)
    requires OneLine(NameIn(t))
    ensures OneLine(TopText(t))
  {
    assert OneLine("#pragma ") && OneLine("#include \"") && OneLine("\"") && OneLine("using enum ") && OneLine(";");
    match t
    case Pragma(name) => BothLines("#pragma ", name);
    case Include(file) =>
      BothLines("#include \"", file);
      BothLines("#include \"" + file, "\"");
    case Using(name) =>
      BothLines("using enum ", name);
      BothLines("using enum " + name, ";");
    case Blank =>
  }

  lemma TopIsLines(top: seq<TopLine>)
    requires forall t :: t in top ==> OneLine(NameIn(t))
    ensures AllLines(TopTexts(top))
  {
    hide OneLine, TopText;
    forall i | 0 <= i < |top| ensures OneLine(TopTexts(top)[i]) {
      TopIsLine(top[i]);
    }
  }

  lemma HeaderTopIsLines()
    ensures AllLines(TopTexts(MAKER_HEADER_TOP))
  {
    assert OneLine("once") && OneLine("Util/CPacket.h");
    hide OneLine;
    TopIsLines(MAKER_HEADER_TOP);
  }

  /** The generated maker header determines the packets: parsing it gives back cases, types and names in order. */
  lemma MakerHeaderIsReadBack(packets: seq<Packet>)
    requires AllPrintable(packets)
    ensures ParseMakerHeader(MakerHeader(packets))
         == Some(HeaderFile([Pragma("once"), Include("Util/CPacket.h")], packets))
  {
    hide ParseTop, ParseDeclarations, LinesOf, TopTexts, OneLine;
    var top, lines := TopTexts(MAKER_HEADER_TOP), HeaderLinesFrom(packets, 0);
    UnlinesAppend(top, lines);
    HeaderTopIsLines();
    DeclarationsAreReadBack(packets, 0);
    LinesAreReadBack(top + lines);
    if lines != [] {
      NoTopLine(lines[0]);
    }
    TopIsReadBack(MAKER_HEADER_TOP, lines);
    assert packets[0..] == packets;
  }
}
