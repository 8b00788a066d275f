/** Recovering tool calls that a model wrote as text (internal/agent/tool_recovery.go). Each of
    the five regular expressions has a matcher of its own that works on the rest of the text. */
module Recovery {
  import opened Options
  import opened Text

  // ----- building blocks -----

  /** The white space of a regular expression. */
  predicate IsWs(c: char) {
    c == ' ' || c == '\t' || c == '\n' || c == '\U{C}' || c == '\r'
  }

  function SkipWs(s: string): (r: string)
    ensures |r| <= |s|
  {
    if s != [] && IsWs(s[0]) then SkipWs(s[1..]) else s
  }

  /** What follows the literal at the head. */
  function Expect(s: string, lit: string): (r: Option<string>)
    ensures r.Some? ==> |r.value| == |s| - |lit|
  {
    if lit <= s then Some(s[|lit|..]) else None
  }

  /** What stands before and after the first `c`. */
  function Break(s: string, c: char): (r: Option<(string, string)>)
    ensures r.Some? ==> |r.value.0| + |r.value.1| < |s|
  {
    if s == [] then None
    else if s[0] == c then Some(([], s[1..]))
    else
      var r := Break(s[1..], c);
      if r.None? then None else Some(([s[0]] + r.value.0, r.value.1))
  }

  /** What stands before and after the first occurrence of the literal. */
  function Cut(s: string, lit: string): (r: Option<(string, string)>)
    ensures r.Some? ==> |r.value.0| + |r.value.1| + |lit| == |s|
  {
    if lit <= s then Some(([], s[|lit|..]))
    else if s == [] then None
    else
      var r := Cut(s[1..], lit);
      if r.None? then None else Some(([s[0]] + r.value.0, r.value.1))
  }

  lemma ExpectHead(lit: string, r: string)
    ensures Expect(lit + r, lit) == Some(r)
  {
    assert (lit + r)[|lit|..] == r;
  }

  lemma {:induction false} BreakAt(a: string, c: char, r: string)
    requires c !in a
    ensures Break(a + ([c] + r), c) == Some((a, r))
  {
    var s := a + ([c] + r);
    if a == [] {
      assert s == [c] + r && s[1..] == r;
    } else {
      assert s[1..] == a[1..] + ([c] + r) && s[0] == a[0];
      BreakAt(a[1..], c, r);
      assert [a[0]] + a[1..] == a;
    }
  }

  /** Text in which the literal cannot begin is passed over. */
  lemma {:induction false} CutOver(a: string, s: string, lit: string)
    requires lit != [] && lit[0] !in a
    ensures Cut(a + s, lit) == Prepend(a, Cut(s, lit))
  {
    if a == [] {
      assert a + s == s;
      if Cut(s, lit).Some? {
        assert [] + Cut(s, lit).value.0 == Cut(s, lit).value.0;
      }
    } else {
      assert (a + s)[1..] == a[1..] + s && (a + s)[0] == a[0];
      CutOver(a[1..], s, lit);
      assert [a[0]] + a[1..] == a;
      PrependTwice([a[0]], a[1..], Cut(s, lit));
    }
  }

  function Prepend(a: string, r: Option<(string, string)>): Option<(string, string)> {
    if r.None? then None else Some((a + r.value.0, r.value.1))
  }

  lemma PrependTwice(a: string, b: string, r: Option<(string, string)>)
    ensures Prepend(a, Prepend(b, r)) == Prepend(a + b, r)
  {
    if r.Some? {
      assert a + (b + r.value.0) == a + b + r.value.0;
    }
  }

  /** So is a tag that is not the literal itself. */
  lemma CutOverTag(tag: string, s: string, lit: string)
    requires lit != [] && tag != [] && lit[0] !in tag[1..] && !(lit <= tag + s)
    ensures Cut(tag + s, lit) == Prepend(tag, Cut(s, lit))
  {
    assert (tag + s)[1..] == tag[1..] + s && (tag + s)[0] == tag[0];
    CutOver(tag[1..], s, lit);
    PrependTwice([tag[0]], tag[1..], Cut(s, lit));
    assert [tag[0]] + tag[1..] == tag;
  }

  // ----- tags -----

  function InvokeTag(): string { "invoke" }
  function ParameterTag(): string { "parameter" }
  function NameAttr(): string { "name=\"" }
  function TrueAttr(): string { "string=\"true\"" }
  function FalseAttr(): string { "string=\"false\"" }

  function Open(tag: string): string { "<" + tag }
  function Close(tag: string): string { "</" + tag + ">" }

  datatype Hint = NoHint | IsString | IsJson

  /** A matched element: its name, the type hint of a parameter, and what stands inside. */
  datatype Found = Found(name: string, hint: Hint, body: string)

  /** The opening of an element up to the end of its name attribute: the name, and what follows. */
  function Header(s: string, tag: string): (r: Option<(string, string)>)
    ensures r.Some? ==> |r.value.1| < |s|
  {
    var a := Expect(s, Open(tag));
    if a.None? || a.value == [] || !IsWs(a.value[0]) then None
    else
      var b := Expect(SkipWs(a.value), NameAttr());
      if b.None? then None
      else
        var c := Break(b.value, '"');
        if c.None? || c.value.0 == "" then None else c
  }

  /** The rest of the opening tag and the content up to the nearest closing tag. */
  function Content(s: string, tag: string): (r: Option<(string, string)>)
    ensures r.Some? ==> |r.value.0| + |r.value.1| < |s|
  {
    var a := SkipWs(s);
    if a == [] || a[0] != '>' then None else Cut(a[1..], Close(tag))
  }

  /** The optional type hint of a parameter, and what follows. */
  function HintOf(s: string): (r: (Hint, string))
    ensures |r.1| <= |s|
  {
    if s == [] || !IsWs(s[0]) then (NoHint, s)
    else
      var a := SkipWs(s);
      if Expect(a, TrueAttr()).Some? then (IsString, Expect(a, TrueAttr()).value)
      else if Expect(a, FalseAttr()).Some? then (IsJson, Expect(a, FalseAttr()).value)
      else (NoHint, s)
  }

  /** invokeRE: a named invoke element at the head of the text, and what follows it. */
  function InvokeAt(s: string): (r: Option<(Found, string)>)
    ensures r.Some? ==> |r.value.1| < |s|
  {
    var h := Header(s, InvokeTag());
    if h.None? then None
    else
      var c := Content(h.value.1, InvokeTag());
      if c.None? then None else Some((Found(h.value.0, NoHint, c.value.0), c.value.1))
  }

  /** parameterRE */
  function ParameterAt(s: string): (r: Option<(Found, string)>)
    ensures r.Some? ==> |r.value.1| < |s|
  {
    var h := Header(s, ParameterTag());
    if h.None? then None
    else
      var (hint, t) := HintOf(h.value.1);
      var c := Content(t, ParameterTag());
      if c.None? then None else Some((Found(h.value.0, hint, c.value.0), c.value.1))
  }

  /** All matches, from left to right. */
  function Invokes(s: string): seq<Found>
    decreases |s|
  {
    if s == [] then []
    else
      var m := InvokeAt(s);
      if m.Some? then [m.value.0] + Invokes(m.value.1) else Invokes(s[1..])
  }

  function Parameters(s: string): seq<Found>
    decreases |s|
  {
    if s == [] then []
    else
      var m := ParameterAt(s);
      if m.Some? then [m.value.0] + Parameters(m.value.1) else Parameters(s[1..])
  }

  // ----- stripping -----

  function SkipSlash(s: string): (r: string)
    ensures |r| <= |s|
  {
    if s != [] && s[0] == '/' then s[1..] else s
  }

  function Dsml(): string { "DSML" }
  function ToolCallsTag(): string { "tool_calls" }
  function FunctionCallsTag(): string { "function_calls" }

  function WrapperName(s: string): (r: Option<string>)
    ensures r.Some? ==> |r.value| <= |s|
  {
    if Expect(s, ToolCallsTag()).Some? then Expect(s, ToolCallsTag())
    else if Expect(s, FunctionCallsTag()).Some? then Expect(s, FunctionCallsTag())
    else Expect(s, Dsml())
  }

  /** stripRE's other alternative: an opening or closing wrapper tag. */
  function WrapperAt(s: string): (r: Option<string>)
    ensures r.Some? ==> |r.value| < |s|
  {
    if s == [] || s[0] != '<' then None
    else
      var a := WrapperName(SkipSlash(s[1..]));
      if a.None? then None
      else
        var b := SkipSlash(SkipWs(a.value));
        if b == [] || b[0] != '>' then None else Some(b[1..])
  }

  /** stripRE replaced by nothing. */
  function Strip(s: string): string
    decreases |s|
  {
    if s == [] then []
    else if InvokeAt(s).Some? then Strip(InvokeAt(s).value.1)
    else if WrapperAt(s).Some? then Strip(WrapperAt(s).value)
    else [s[0]] + Strip(s[1..])
  }

  // ----- leaked delimiters -----

  /** A pipe of either width, or white space. */
  predicate IsNoise(c: char) {
    c == '|' || c == '\U{FF5C}' || IsWs(c)
  }

  /** tagLeakHintRE at the head of the text. */
  predicate HintAt(s: string) {
    || Open(InvokeTag()) <= s
    || (s != [] && s[0] == '<' && PipeNext(SkipWs(SkipSlash(SkipWs(s[1..])))))
  }

  predicate PipeNext(s: string) {
    s != [] && (s[0] == '|' || s[0] == '\U{FF5C}')
  }

  predicate Hinted(s: string) {
    s != [] && (HintAt(s) || Hinted(s[1..]))
  }

  /** Leaked noise, pipes, white space and DSML, as far as it goes. */
  function SkipNoise(s: string): (r: string)
    ensures |r| <= |s|
    decreases |s|
  {
    if s != [] && IsNoise(s[0]) then SkipNoise(s[1..])
    else if Expect(s, Dsml()).Some? then SkipNoise(Expect(s, Dsml()).value)
    else s
  }

  /** What follows the last DSML in that stretch. */
  function LastDsml(s: string): (r: Option<string>)
    ensures r.Some? ==> |r.value| <= |s|
    decreases |s|
  {
    if s != [] && IsNoise(s[0]) then LastDsml(s[1..])
    else
      var a := Expect(s, Dsml());
      if a.None? then None else if LastDsml(a.value).Some? then LastDsml(a.value) else a
  }

  /** A tag name other than DSML, and what follows. */
  function TagAt(s: string): (r: Option<(string, string)>)
    ensures r.Some? ==> |r.value.1| <= |s|
  {
    if Expect(s, InvokeTag()).Some? then Some((InvokeTag(), Expect(s, InvokeTag()).value))
    else if Expect(s, ParameterTag()).Some? then Some((ParameterTag(), Expect(s, ParameterTag()).value))
    else if Expect(s, ToolCallsTag()).Some? then Some((ToolCallsTag(), Expect(s, ToolCallsTag()).value))
    else if Expect(s, FunctionCallsTag()).Some? then Some((FunctionCallsTag(), Expect(s, FunctionCallsTag()).value))
    else None
  }

  function TrimNoise(s: string): string {
    if s != [] && IsNoise(s[|s| - 1]) then TrimNoise(s[..|s| - 1]) else s
  }

  /** Behind the tag name, attributes and trailing noise up to the end of the tag: the tag without
      the noise, and what follows. */
  function Reassembled(slash: string, tag: string, s: string): (r: Option<(string, string)>)
    ensures r.Some? ==> |r.value.1| < |s|
  {
    var b := Break(s, '>');
    if b.None? then None else Some(("<" + (slash + (tag + (TrimNoise(b.value.0) + ">"))), b.value.1))
  }

  /** leakedTagRE at the head of the text: a tag name behind all the noise, or else the last DSML
      in the noise. */
  function LeakAt(s: string): (r: Option<(string, string)>)
    ensures r.Some? ==> |r.value.1| < |s|
  {
    if s == [] || s[0] != '<' then None
    else
      var a := SkipNoise(s[1..]);
      var slashed := a != [] && a[0] == '/';
      var b := if slashed then SkipNoise(a[1..]) else a;
      if TagAt(b).Some? then Reassembled(if slashed then "/" else "", TagAt(b).value.0, TagAt(b).value.1)
      else if slashed && LastDsml(a[1..]).Some? then Reassembled("/", Dsml(), LastDsml(a[1..]).value)
      else if LastDsml(s[1..]).Some? then Reassembled("", Dsml(), LastDsml(s[1..]).value)
      else None
  }

  /** leakedTagRE replaced by the plain tag. */
  function Normalize(s: string): string
    decreases |s|
  {
    if s == [] then []
    else
      var m := LeakAt(s);
      if m.Some? then m.value.0 + Normalize(m.value.1) else [s[0]] + Normalize(s[1..])
  }

  // ----- the printed form -----

  /** Pipes and white space as far as they go. */
  function SkipPipes(s: string): (r: string)
    ensures |r| <= |s|
  {
    if s != [] && IsNoise(s[0]) then SkipPipes(s[1..]) else s
  }

  predicate NameNext(s: string) {
    InvokeTag() <= s || ParameterTag() <= s || ToolCallsTag() <= s || FunctionCallsTag() <= s || Dsml() <= s
  }

  /** A tag begins here: one of the names stands behind the '<', with pipes and white space and at
      most one slash between. All five patterns need that. */
  predicate TagBegins(s: string) {
    && s != [] && s[0] == '<'
    && var a := SkipPipes(s[1..]);
       NameNext(a) || (a != [] && a[0] == '/' && NameNext(SkipPipes(a[1..])))
  }

  /** Text in which no tag begins. Quotes and all other angle brackets are welcome. */
  predicate Untagged(s: string) {
    s == [] || (!TagBegins(s) && Untagged(s[1..]))
  }

  /** A name: text without tag delimiters and quotes. */
  predicate Free(s: string) {
    '<' !in s && '>' !in s && '"' !in s
  }

  function HintText(h: Hint): string {
    match h
    case NoHint => ""
    case IsString => " " + TrueAttr()
    case IsJson => " " + FalseAttr()
  }

  function OpenTag(tag: string, name: string, h: Hint): string {
    Open(tag) + (" " + (NameAttr() + (name + ("\"" + (HintText(h) + ">")))))
  }

  /** How the tags are written. */
  lemma PrintedTags(tag: string, name: string, h: Hint)
    ensures InvokeTag() == "invoke" && ParameterTag() == "parameter"
    ensures OpenTag(tag, name, h) == "<" + tag + " " + "name=\"" + name + "\"" + PrintedHint(h) + ">"
    ensures Close(tag) == "</" + tag + ">"
  {
    var n, t := NameAttr(), HintText(h);
    assert t == PrintedHint(h);
    assert n == "name=\"";
    hide HintText, NameAttr, PrintedHint;
    Leftmost("<" + tag, " ", n, name, "\"", t, ">");
  }

  function PrintedHint(h: Hint): string {
    match h
    case NoHint => ""
    case IsString => " " + "string=\"true\""
    case IsJson => " " + "string=\"false\""
  }

  lemma Leftmost(a: string, b: string, c: string, d: string, e: string, f: string, g: string)
    ensures a + (b + (c + (d + (e + (f + g))))) == a + b + c + d + e + f + g
  {
    assert e + (f + g) == e + f + g;
    assert d + (e + f + g) == d + e + f + g;
    assert c + (d + e + f + g) == c + d + e + f + g;
    assert b + (c + d + e + f + g) == b + c + d + e + f + g;
    assert a + (b + c + d + e + f + g) == a + b + c + d + e + f + g;
  }

  /** A parameter with the text before it. */
  datatype Param = Param(before: string, key: string, hint: Hint, value: string)

  /** A stretch of what surrounds the calls: text without tags, or a wrapper tag. */
  datatype Bit = Words(text: string) | Wrapper(slash: bool, tag: string)

  /** A call with what stands before it and the text behind its last parameter. */
  datatype Call = Call(before: seq<Bit>, name: string, params: seq<Param>, tail: string)

  function WrapperTag(slash: bool, tag: string): string {
    "<" + ((if slash then "/" else "") + (tag + ">"))
  }

  function ShowBit(b: Bit): string {
    match b
    case Words(text) => text
    case Wrapper(slash, tag) => WrapperTag(slash, tag)
  }

  function SayBit(b: Bit): string {
    match b
    case Words(text) => text
    case Wrapper(_, _) => ""
  }

  /** The surroundings as they are written. */
  function Show(bs: seq<Bit>): string {
    if bs == [] then "" else ShowBit(bs[0]) + Show(bs[1..])
  }

  /** The words alone. */
  function Say(bs: seq<Bit>): string {
    if bs == [] then "" else SayBit(bs[0]) + Say(bs[1..])
  }

  /** The parameters, each with the text before it, and then `tail`. */
  function PrintParams(ps: seq<Param>, tail: string): string {
    if ps == [] then tail
    else
      ps[0].before + (OpenTag(ParameterTag(), ps[0].key, ps[0].hint)
                      + (ps[0].value + (Close(ParameterTag()) + PrintParams(ps[1..], tail))))
  }

  /** The calls, each with what stands before it, and then `after`. */
  function Print(cs: seq<Call>, after: seq<Bit>): string {
    if cs == [] then Show(after)
    else
      Show(cs[0].before) + (OpenTag(InvokeTag(), cs[0].name, NoHint)
                      + (PrintParams(cs[0].params, cs[0].tail) + (Close(InvokeTag()) + Print(cs[1..], after))))
  }

  /** The prose alone, without the calls and without the wrapper tags. */
  function Prose(cs: seq<Call>, after: seq<Bit>): string {
    if cs == [] then Say(after) else Say(cs[0].before) + Prose(cs[1..], after)
  }

  predicate GoodParam(p: Param) {
    Untagged(p.before) && Free(p.key) && p.key != "" && Untagged(p.value)
  }

  predicate GoodParams(ps: seq<Param>) {
    ps == [] || (GoodParam(ps[0]) && GoodParams(ps[1..]))
  }

  predicate WrapsCalls(tag: string) {
    tag == ToolCallsTag() || tag == FunctionCallsTag() || tag == Dsml()
  }

  predicate GoodBit(b: Bit) {
    match b
    case Words(text) => Untagged(text)
    case Wrapper(_, tag) => WrapsCalls(tag)
  }

  /** Two stretches of text in a row are written as one. */
  predicate GoodBits(bs: seq<Bit>) {
    bs == [] || (GoodBit(bs[0]) && (bs[0].Words? && |bs| > 1 ==> bs[1].Wrapper?) && GoodBits(bs[1..]))
  }

  predicate GoodCall(c: Call) {
    GoodBits(c.before) && Free(c.name) && c.name != "" && GoodParams(c.params) && Untagged(c.tail)
  }

  predicate Good(cs: seq<Call>, after: seq<Bit>) {
    if cs == [] then GoodBits(after) else GoodCall(cs[0]) && Good(cs[1..], after)
  }

  function FoundParams(ps: seq<Param>): seq<Found> {
    if ps == [] then [] else [Found(ps[0].key, ps[0].hint, ps[0].value)] + FoundParams(ps[1..])
  }

  function FoundCalls(cs: seq<Call>): seq<Found> {
    if cs == [] then []
    else [Found(cs[0].name, NoHint, PrintParams(cs[0].params, cs[0].tail))] + FoundCalls(cs[1..])
  }

  // ----- reading a printed tag -----

  lemma Literals()
    ensures NameAttr() != [] && !IsWs(NameAttr()[0]) && '<' !in NameAttr() && '>' !in NameAttr()
    ensures TrueAttr() != [] && !IsWs(TrueAttr()[0]) && '<' !in TrueAttr() && '>' !in TrueAttr()
    ensures FalseAttr() != [] && !IsWs(FalseAttr()[0]) && '<' !in FalseAttr() && '>' !in FalseAttr()
  {
  }

  lemma HintLiterals(r: string)
    ensures !(TrueAttr() <= FalseAttr() + r)
  {
    var f := FalseAttr() + r;
    assert f[8] == 'f' && TrueAttr()[8] == 't';
  }

  lemma SkipOneWs(s: string)
    requires s != [] && !IsWs(s[0])
    ensures SkipWs(" " + s) == s && SkipWs(s) == s
  {
    assert (" " + s)[1..] == s;
  }

  /** The printed opening tag, read from the left. */
  lemma TagShape(tag: string, name: string, h: Hint, r: string)
    ensures OpenTag(tag, name, h) + r ==
            Open(tag) + (" " + (NameAttr() + (name + ("\"" + (HintText(h) + (">" + r))))))
  {
    hide Open, NameAttr, HintText;
    var a, n, t := Open(tag), NameAttr(), HintText(h);
    assert (t + ">") + r == t + (">" + r);
    assert ("\"" + (t + ">")) + r == "\"" + (t + (">" + r));
    assert (name + ("\"" + (t + ">"))) + r == name + ("\"" + (t + (">" + r)));
    assert (n + (name + ("\"" + (t + ">")))) + r == n + (name + ("\"" + (t + (">" + r))));
    assert (" " + (n + (name + ("\"" + (t + ">"))))) + r == " " + (n + (name + ("\"" + (t + (">" + r)))));
  }

  lemma HeaderOf(tag: string, name: string, r: string)
    requires '"' !in name && name != ""
    ensures Header(Open(tag) + (" " + (NameAttr() + (name + ("\"" + r)))), tag) == Some((name, r))
  {
    Literals();
    hide NameAttr, Open;
    var c := name + ("\"" + r);
    var b := NameAttr() + c;
    ExpectHead(Open(tag), " " + b);
    SkipOneWs(b);
    ExpectHead(NameAttr(), c);
    BreakAt(name, '"', r);
  }

  lemma HintOfText(h: Hint, r: string)
    ensures HintOf(HintText(h) + (">" + r)) == (h, ">" + r)
  {
    hide TrueAttr, FalseAttr;
    Literals();
    var t := ">" + r;
    match h {
      case NoHint => assert HintText(h) + t == t;
      case IsString =>
        assert HintText(h) + t == " " + (TrueAttr() + t);
        SkipOneWs(TrueAttr() + t);
        ExpectHead(TrueAttr(), t);
      case IsJson =>
        assert HintText(h) + t == " " + (FalseAttr() + t);
        SkipOneWs(FalseAttr() + t);
        HintLiterals(t);
        ExpectHead(FalseAttr(), t);
    }
  }

  lemma ContentOf(body: string, tag: string, r: string)
    requires Cut(body + (Close(tag) + r), Close(tag)) == Some((body, r))
    ensures Content(">" + (body + (Close(tag) + r)), tag) == Some((body, r))
  {
    hide Cut, Close;
    var s := body + (Close(tag) + r);
    assert (">" + s)[1..] == s && (">" + s)[0] == '>';
  }

  // ----- text in which no tag begins -----

  /** No tag begins within `a` when `s` follows. */
  predicate Passes(a: string, s: string) {
    a == [] || (!TagBegins(a + s) && Passes(a[1..], s))
  }

  lemma {:induction false} PlainPasses(a: string, s: string)
    requires '<' !in a
    ensures Passes(a, s)
  {
    hide TagBegins;
    if a != [] {
      NoBracket(a + s);
      PlainPasses(a[1..], s);
    }
  }

  lemma NoBracket(s: string)
    requires s != [] && s[0] != '<'
    ensures !TagBegins(s)
  {
  }

  /** What follows a text in the printed form. */
  predicate Bracket(s: string) {
    s == [] || s[0] == '<'
  }

  lemma {:induction false} SkipPipesBefore(a: string, s: string)
    requires Bracket(s)
    ensures SkipPipes(a + s) == SkipPipes(a) + s
  {
    if a == [] {
      assert a + s == s;
      assert SkipPipes(s) == s;
    } else {
      assert (a + s)[1..] == a[1..] + s && (a + s)[0] == a[0];
      if IsNoise(a[0]) {
        SkipPipesBefore(a[1..], s);
      } else {
        assert SkipPipes(a) == a && SkipPipes(a + s) == a + s;
      }
    }
  }

  lemma LettersOfPrefix(word: string, t: string, k: nat)
    requires word <= t && k < |word|
    ensures t[k] in word
  {
    assert word[k] == t[k];
  }

  lemma WordBefore(word: string, a: string, s: string)
    requires Bracket(s) && '<' !in word && word <= a + s
    ensures word <= a
  {
    if |word| > |a| {
      LettersOfPrefix(word, a + s, |a|);
    } else {
      assert word == (a + s)[..|word|] == a[..|word|];
    }
  }

  lemma NameBefore(a: string, s: string)
    requires Bracket(s) && NameNext(a + s)
    ensures NameNext(a)
  {
    TagLetters();
    TagNames();
    hide InvokeTag, ParameterTag, ToolCallsTag, FunctionCallsTag, Dsml, Bracket;
    if InvokeTag() <= a + s { WordBefore(InvokeTag(), a, s); }
    if ParameterTag() <= a + s { WordBefore(ParameterTag(), a, s); }
    if ToolCallsTag() <= a + s { WordBefore(ToolCallsTag(), a, s); }
    if FunctionCallsTag() <= a + s { WordBefore(FunctionCallsTag(), a, s); }
    if Dsml() <= a + s { WordBefore(Dsml(), a, s); }
  }

  lemma BeginsBefore(a: string, s: string)
    requires a != [] && Bracket(s) && TagBegins(a + s)
    ensures TagBegins(a)
  {
    hide NameNext, Bracket, SkipPipes;
    var u := SkipPipes(a[1..]);
    assert (a + s)[1..] == a[1..] + s;
    SkipPipesBefore(a[1..], s);
    if NameNext(u + s) {
      NameBefore(u, s);
    } else {
      SlashBefore(u, s);
    }
  }

  lemma SlashBefore(u: string, s: string)
    requires Bracket(s) && u + s != [] && (u + s)[0] == '/' && NameNext(SkipPipes((u + s)[1..]))
    ensures u != [] && u[0] == '/' && NameNext(SkipPipes(u[1..]))
  {
    hide NameNext, SkipPipes;
    assert u != [];
    assert (u + s)[1..] == u[1..] + s;
    SkipPipesBefore(u[1..], s);
    NameBefore(SkipPipes(u[1..]), s);
  }

  /** Whether a tag begins in a text is settled before the next '<'. */
  lemma {:induction false} UntaggedPasses(a: string, s: string)
    requires Untagged(a) && Bracket(s)
    ensures Passes(a, s)
  {
    hide TagBegins, Bracket;
    if a != [] {
      if TagBegins(a + s) {
        BeginsBefore(a, s);
      }
      UntaggedPasses(a[1..], s);
    }
  }

  lemma {:induction false} NoDsml(s: string)
    requires !(Dsml() <= SkipPipes(s))
    ensures SkipNoise(s) == SkipPipes(s) && LastDsml(s).None?
  {
    hide Dsml;
    if s != [] && IsNoise(s[0]) {
      NoDsml(s[1..]);
    }
  }

  lemma NoName(s: string)
    requires !NameNext(s)
    ensures TagAt(s).None? && WrapperName(s).None? && !(Dsml() <= s)
  {
    hide InvokeTag, ParameterTag, ToolCallsTag, FunctionCallsTag, Dsml;
  }

  lemma LeaksNothing(s: string)
    requires s != [] && !TagBegins(s)
    ensures LeakAt(s).None?
  {
    hide Reassembled, TagAt, NameNext, SkipNoise, SkipPipes, LastDsml, Dsml;
    if s[0] == '<' {
      var a := SkipPipes(s[1..]);
      NoName(a);
      NoDsml(s[1..]);
      if a != [] && a[0] == '/' {
        NoName(SkipPipes(a[1..]));
        NoDsml(a[1..]);
      }
    }
  }

  /** A tag name begins with none of what is skipped. */
  lemma NameStays(s: string)
    requires NameNext(s)
    ensures s != [] && s[0] != '/' && SkipPipes(s) == s
  {
    TagLetters();
    TagNames();
    hide InvokeTag, ParameterTag, ToolCallsTag, FunctionCallsTag, Dsml;
  }

  lemma NothingNamed(s: string)
    requires s != [] && s[0] == '<' && !TagBegins(s)
    ensures !NameNext(s[1..]) && (s[1..] != [] && s[1] == '/' ==> !NameNext(s[2..]))
  {
    hide NameNext;
    var t := s[1..];
    if NameNext(t) {
      NameStays(t);
    }
    if t != [] && t[0] == '/' {
      assert t[1..] == s[2..];
      if NameNext(t[1..]) {
        NameStays(t[1..]);
      }
    }
  }

  lemma WrapsNothing(s: string)
    requires s != [] && !TagBegins(s)
    ensures WrapperAt(s).None?
  {
    hide TagBegins, NameNext, WrapperName, SkipWs;
    if s[0] == '<' {
      NothingNamed(s);
      assert s[1..] != [] ==> s[1..][1..] == s[2..];
      NoName(SkipSlash(s[1..]));
    }
  }

  lemma OpensNothing(s: string)
    requires s != [] && !TagBegins(s)
    ensures InvokeAt(s).None? && ParameterAt(s).None?
  {
    TagLetters();
    hide TagBegins, Content, HintOf, InvokeTag, ParameterTag, ToolCallsTag, FunctionCallsTag, Dsml;
    if s[0] == '<' {
      NothingNamed(s);
      assert Open(InvokeTag())[1..] == InvokeTag() && Open(ParameterTag())[1..] == ParameterTag();
    }
  }

  lemma ClosesNothing(s: string, tag: string)
    requires s != [] && !TagBegins(s) && (tag == InvokeTag() || tag == ParameterTag())
    ensures !(Close(tag) <= s)
  {
    TagLetters();
    hide TagBegins, InvokeTag, ParameterTag, ToolCallsTag, FunctionCallsTag, Dsml;
    var lit := Close(tag);
    assert lit[0] == '<' && lit[1] == '/' && lit[2..] == tag + ">";
    assert lit <= s ==> tag <= s[2..];
    if s[0] == '<' {
      NothingNamed(s);
    }
  }

  lemma {:induction false} CutPast(a: string, s: string, tag: string)
    requires Passes(a, s) && (tag == InvokeTag() || tag == ParameterTag())
    ensures Cut(a + s, Close(tag)) == Prepend(a, Cut(s, Close(tag)))
  {
    hide TagBegins, Close, InvokeTag, ParameterTag;
    if a == [] {
      assert a + s == s;
      if Cut(s, Close(tag)).Some? {
        assert [] + Cut(s, Close(tag)).value.0 == Cut(s, Close(tag)).value.0;
      }
    } else {
      assert (a + s)[1..] == a[1..] + s && (a + s)[0] == a[0];
      ClosesNothing(a + s, tag);
      CutPast(a[1..], s, tag);
      assert [a[0]] + a[1..] == a;
      PrependTwice([a[0]], a[1..], Cut(s, Close(tag)));
    }
  }

  /** Text in which no tag begins is cut off whole. */
  lemma CutText(a: string, tag: string, r: string)
    requires Untagged(a) && (tag == InvokeTag() || tag == ParameterTag())
    ensures Cut(a + (Close(tag) + r), Close(tag)) == Some((a, r))
  {
    hide Untagged, Passes, InvokeTag, ParameterTag;
    var lit := Close(tag);
    assert lit[0] == '<' && (lit + r)[0] == '<' && (lit + r)[|lit|..] == r;
    UntaggedPasses(a, lit + r);
    CutPast(a, lit + r, tag);
    assert a + [] == a;
  }

  lemma ParameterOf(key: string, h: Hint, value: string, r: string)
    requires Free(key) && key != "" && Untagged(value)
    ensures ParameterAt(OpenTag(ParameterTag(), key, h) + (value + (Close(ParameterTag()) + r))) ==
            Some((Found(key, h, value), r))
  {
    hide Open, NameAttr, HintText, ParameterTag, Header, HintOf, Content, OpenTag, Cut, Untagged;
    var tag := ParameterTag();
    var s := value + (Close(tag) + r);
    TagShape(tag, key, h, s);
    HeaderOf(tag, key, HintText(h) + (">" + s));
    HintOfText(h, s);
    CutText(value, tag, r);
    ContentOf(value, tag, r);
  }

  lemma InvokeOf(name: string, body: string, r: string)
    requires Free(name) && name != ""
    requires Cut(body + (Close(InvokeTag()) + r), Close(InvokeTag())) == Some((body, r))
    ensures InvokeAt(OpenTag(InvokeTag(), name, NoHint) + (body + (Close(InvokeTag()) + r))) ==
            Some((Found(name, NoHint, body), r))
  {
    hide Open, NameAttr, InvokeTag, Header, Content, OpenTag, Close, Cut;
    var tag := InvokeTag();
    var s := body + (Close(tag) + r);
    TagShape(tag, name, NoHint, s);
    HeaderOf(tag, name, HintText(NoHint) + (">" + s));
    assert HintText(NoHint) + (">" + s) == ">" + s;
    ContentOf(body, tag, r);
  }

  // ----- finding what was printed -----

  lemma OpenTagFacts(tag: string, name: string, h: Hint)
    requires '<' !in tag && Free(name)
    ensures OpenTag(tag, name, h) != [] && OpenTag(tag, name, h)[0] == '<' && '<' !in OpenTag(tag, name, h)[1..]
  {
    Literals();
    hide NameAttr, TrueAttr, FalseAttr;
    var t := " " + (NameAttr() + (name + ("\"" + (HintText(h) + ">"))));
    assert '<' !in HintText(h);
    assert OpenTag(tag, name, h)[1..] == tag + t;
  }

  lemma TagLetters()
    ensures InvokeTag() != [] && InvokeTag()[0] == 'i' && '<' !in InvokeTag() && '>' !in InvokeTag()
    ensures ParameterTag() != [] && ParameterTag()[0] == 'p' && '<' !in ParameterTag() && '>' !in ParameterTag()
    ensures Dsml() != [] && Dsml()[0] == 'D' && '<' !in Dsml()
  {
  }

  lemma CloseFacts(tag: string)
    requires tag != [] && '<' !in tag
    ensures |Close(tag)| > 2 && Close(tag)[0] == '<' && Close(tag)[1] == '/' && Close(tag)[2] == tag[0]
    ensures '<' !in Close(tag)[1..]
  {
    assert Close(tag)[1..] == "/" + tag + ">";
  }

  /** A closing tag for invoke begins neither at an opening nor at a closing tag for a parameter. */
  lemma TagsDiffer(key: string, h: Hint, s: string)
    ensures !(Close(InvokeTag()) <= OpenTag(ParameterTag(), key, h) + s)
    ensures !(Close(InvokeTag()) <= Close(ParameterTag()) + s)
  {
    TagLetters();
    hide InvokeTag, ParameterTag;
    CloseFacts(InvokeTag());
    CloseFacts(ParameterTag());
    var open, close := OpenTag(ParameterTag(), key, h) + s, Close(ParameterTag()) + s;
    assert open[1] == 'p' && close[2] == 'p';
  }

  lemma {:induction false} PrintParamsAppend(ps: seq<Param>, tail: string, r: string)
    ensures PrintParams(ps, tail) + r == PrintParams(ps, tail + r)
  {
    hide OpenTag, Close;
    if ps != [] {
      var x := PrintParams(ps[1..], tail);
      PrintParamsAppend(ps[1..], tail, r);
      Shift4(ps[0].before, OpenTag(ParameterTag(), ps[0].key, ps[0].hint), ps[0].value, Close(ParameterTag()), x, r);
    }
  }

  lemma Shift4(a: string, b: string, c: string, d: string, x: string, r: string)
    ensures a + (b + (c + (d + x))) + r == a + (b + (c + (d + (x + r))))
  {
    assert d + x + r == d + (x + r);
    assert c + (d + x) + r == c + (d + (x + r));
    assert b + (c + (d + x)) + r == b + (c + (d + (x + r)));
  }

  /** The body of a printed call ends where it was closed. */
  lemma {:induction false} CutParams(ps: seq<Param>, tail: string, r: string)
    requires GoodParams(ps) && Untagged(tail)
    ensures Cut(PrintParams(ps, tail + (Close(InvokeTag()) + r)), Close(InvokeTag())) ==
            Some((PrintParams(ps, tail), r))
  {
    TagLetters();
    CloseFacts(InvokeTag());
    CloseFacts(ParameterTag());
    hide OpenTag, Close, InvokeTag, ParameterTag, Cut, Untagged, Passes;
    var lit := Close(InvokeTag());
    if ps == [] {
      CutText(tail, InvokeTag(), r);
    } else {
      var p, x := ps[0], PrintParams(ps[1..], tail + (lit + r));
      var open, close := OpenTag(ParameterTag(), p.key, p.hint), Close(ParameterTag());
      CutParams(ps[1..], tail, r);
      OpenTagFacts(ParameterTag(), p.key, p.hint);
      TagsDiffer(p.key, p.hint, x);
      CutOverTag(close, x, lit);
      UntaggedPasses(p.value, close + x);
      CutPast(p.value, close + x, InvokeTag());
      TagsDiffer(p.key, p.hint, p.value + (close + x));
      CutOverTag(open, p.value + (close + x), lit);
      UntaggedPasses(p.before, open + (p.value + (close + x)));
      CutPast(p.before, open + (p.value + (close + x)), InvokeTag());
    }
  }

  /** Every matcher needs a tag to begin with. */
  lemma NeedsTag(s: string)
    requires s != [] && s[0] != '<'
    ensures InvokeAt(s).None? && ParameterAt(s).None? && WrapperAt(s).None? && LeakAt(s).None? && !HintAt(s)
  {
    hide Content, HintOf, SkipNoise, InvokeTag, ParameterTag;
    assert Open(InvokeTag())[0] == '<' && Open(ParameterTag())[0] == '<';
  }

  lemma {:induction false} ParametersOver(a: string, s: string)
    requires Passes(a, s)
    ensures Parameters(a + s) == Parameters(s)
  {
    hide ParameterAt, TagBegins;
    if a == [] {
      assert a + s == s;
    } else {
      assert (a + s)[1..] == a[1..] + s && (a + s)[0] == a[0];
      OpensNothing(a + s);
      ParametersOver(a[1..], s);
    }
  }

  lemma {:induction false} InvokesOver(a: string, s: string)
    requires Passes(a, s)
    ensures Invokes(a + s) == Invokes(s)
  {
    hide InvokeAt, TagBegins;
    if a == [] {
      assert a + s == s;
    } else {
      assert (a + s)[1..] == a[1..] + s && (a + s)[0] == a[0];
      OpensNothing(a + s);
      InvokesOver(a[1..], s);
    }
  }

  lemma {:induction false} StripOver(a: string, s: string)
    requires Passes(a, s)
    ensures Strip(a + s) == a + Strip(s)
  {
    hide InvokeAt, WrapperAt, TagBegins;
    if a == [] {
      assert a + s == s && [] + Strip(s) == Strip(s);
    } else {
      assert (a + s)[1..] == a[1..] + s && (a + s)[0] == a[0];
      OpensNothing(a + s);
      WrapsNothing(a + s);
      StripOver(a[1..], s);
      assert [a[0]] + (a[1..] + Strip(s)) == a + Strip(s);
    }
  }

  lemma {:induction false} NormalizeOver(a: string, s: string)
    requires Passes(a, s)
    ensures Normalize(a + s) == a + Normalize(s)
  {
    hide LeakAt, TagBegins;
    if a == [] {
      assert a + s == s && [] + Normalize(s) == Normalize(s);
    } else {
      assert (a + s)[1..] == a[1..] + s && (a + s)[0] == a[0];
      LeaksNothing(a + s);
      NormalizeOver(a[1..], s);
      assert [a[0]] + (a[1..] + Normalize(s)) == a + Normalize(s);
    }
  }

  lemma NothingInText(a: string)
    requires Untagged(a)
    ensures Parameters(a) == [] && Invokes(a) == [] && Strip(a) == a && Normalize(a) == a
  {
    hide Untagged, Passes;
    assert a + [] == a;
    UntaggedPasses(a, []);
    ParametersOver(a, []);
    InvokesOver(a, []);
    StripOver(a, []);
    NormalizeOver(a, []);
  }

  /** The parameters found are those printed. */
  lemma {:induction false} ParametersOf(ps: seq<Param>, tail: string)
    requires GoodParams(ps) && Untagged(tail)
    ensures Parameters(PrintParams(ps, tail)) == FoundParams(ps)
  {
    TagLetters();
    hide OpenTag, Close, ParameterTag, ParameterAt, Untagged, Passes;
    if ps == [] {
      NothingInText(tail);
    } else {
      var p, x := ps[0], PrintParams(ps[1..], tail);
      var y := OpenTag(ParameterTag(), p.key, p.hint) + (p.value + (Close(ParameterTag()) + x));
      OpenTagFacts(ParameterTag(), p.key, p.hint);
      UntaggedPasses(p.before, y);
      ParametersOver(p.before, y);
      ParameterOf(p.key, p.hint, p.value, x);
      assert ParameterAt([]).None? by { NothingAt(); }
      ParametersOf(ps[1..], tail);
    }
  }

  lemma NothingAt()
    ensures InvokeAt([]).None? && ParameterAt([]).None?
  {
    assert Open(InvokeTag()) != [] && Open(ParameterTag()) != [];
  }

  /** A printed call is read back whole. */
  lemma CallOf(c: Call, r: string)
    requires GoodCall(c)
    ensures InvokeAt(OpenTag(InvokeTag(), c.name, NoHint) + (PrintParams(c.params, c.tail) + (Close(InvokeTag()) + r))) ==
            Some((Found(c.name, NoHint, PrintParams(c.params, c.tail)), r))
  {
    hide OpenTag, Close, InvokeTag, InvokeAt, Cut, PrintParams;
    CutParams(c.params, c.tail, r);
    PrintParamsAppend(c.params, c.tail, Close(InvokeTag()) + r);
    InvokeOf(c.name, PrintParams(c.params, c.tail), r);
  }

  lemma WrapperNameRead(tag: string, w: string)
    requires WrapsCalls(tag)
    ensures tag != [] && tag[0] != '/' && tag[0] != 'i' && WrapperName(tag + w) == Some(w)
  {
    TagNames();
    TagLetters();
    hide Dsml, ToolCallsTag, FunctionCallsTag;
    ExpectHead(tag, w);
  }

  /** A wrapper tag is no call and is stripped. */
  lemma WrapperRead(slash: bool, tag: string, s: string)
    requires WrapsCalls(tag)
    ensures InvokeAt(WrapperTag(slash, tag) + s).None?
    ensures WrapperAt(WrapperTag(slash, tag) + s) == Some(s)
  {
    var w := ['>'] + s;
    var u := tag + w;
    var t := if slash then "/" + u else u;
    WrapperNameRead(tag, w);
    assert SkipWs(w) == w && SkipSlash(w) == w && w[1..] == s;
    hide WrapperName, ToolCallsTag, FunctionCallsTag, SkipWs, Content;
    TagStart(slash, tag, s);
    assert ("<" + t)[1..] == t;
    assert ("/" + u)[1..] == u && SkipSlash(t) == u;
    NoInvoke(t);
  }

  lemma TagStart(slash: bool, tag: string, s: string)
    ensures WrapperTag(slash, tag) + s == "<" + (if slash then "/" + (tag + (['>'] + s)) else tag + (['>'] + s))
  {
    var x := tag + (['>'] + s);
    assert tag + ">" + s == x && "" + (tag + ">") == tag + ">";
    assert "/" + (tag + ">") + s == "/" + x;
  }

  lemma NoInvoke(t: string)
    requires t != [] && t[0] != 'i'
    ensures InvokeAt("<" + t).None?
  {
    hide Content;
    assert Open(InvokeTag())[1] == 'i' && ("<" + t)[1] != 'i';
  }

  lemma WrapperLetters(slash: bool, tag: string)
    requires WrapsCalls(tag)
    ensures WrapperTag(slash, tag) != [] && WrapperTag(slash, tag)[0] == '<' && '<' !in WrapperTag(slash, tag)[1..]
  {
    assert WrapperTag(slash, tag)[1..] == (if slash then "/" else "") + (tag + ">");
  }

  lemma PassedOver(w: string, s: string)
    requires w != [] && '<' !in w[1..] && InvokeAt(w + s).None? && WrapperAt(w + s) == Some(s)
    ensures Invokes(w + s) == Invokes(s) && Strip(w + s) == Strip(s)
  {
    hide InvokeAt, WrapperAt;
    assert (w + s)[1..] == w[1..] + s;
    PlainPasses(w[1..], s);
    InvokesOver(w[1..], s);
  }

  lemma WrapperOver(slash: bool, tag: string, s: string)
    requires WrapsCalls(tag)
    ensures Invokes(WrapperTag(slash, tag) + s) == Invokes(s) && Strip(WrapperTag(slash, tag) + s) == Strip(s)
  {
    hide WrapperTag, InvokeAt, WrapperAt, ToolCallsTag, FunctionCallsTag, Invokes, Strip;
    WrapperRead(slash, tag, s);
    WrapperLetters(slash, tag);
    PassedOver(WrapperTag(slash, tag), s);
  }

  /** A bit that follows words begins with a bracket. */
  lemma ShowBracket(bs: seq<Bit>, s: string)
    requires GoodBits(bs) && Bracket(s) && (bs != [] ==> bs[0].Wrapper?)
    ensures Bracket(Show(bs) + s)
  {
    hide WrapperTag, WrapsCalls;
    if bs == [] {
      assert "" + s == s;
    } else {
      WrapperLetters(bs[0].slash, bs[0].tag);
      assert (Show(bs) + s)[0] == ShowBit(bs[0])[0];
    }
  }

  lemma BitOver(b: Bit, s: string)
    requires GoodBit(b) && (b.Words? ==> Bracket(s))
    ensures Invokes(ShowBit(b) + s) == Invokes(s) && Strip(ShowBit(b) + s) == SayBit(b) + Strip(s)
  {
    hide Invokes, Strip, WrapperTag, ToolCallsTag, FunctionCallsTag, Bracket, Untagged, Passes;
    match b {
      case Words(text) =>
        UntaggedPasses(text, s);
        InvokesOver(text, s);
        StripOver(text, s);
      case Wrapper(slash, tag) =>
        WrapperOver(slash, tag, s);
        assert "" + Strip(s) == Strip(s);
    }
  }

  /** What surrounds the calls holds no call, and stripping leaves its words. */
  lemma {:induction false} BitsOver(bs: seq<Bit>, s: string)
    requires GoodBits(bs) && Bracket(s)
    ensures Invokes(Show(bs) + s) == Invokes(s) && Strip(Show(bs) + s) == Say(bs) + Strip(s)
  {
    hide Invokes, Strip, ShowBit, SayBit, GoodBit, Bracket;
    if bs == [] {
      assert "" + s == s && "" + Strip(s) == Strip(s);
    } else {
      BitsOver(bs[1..], s);
      if bs[0].Words? {
        ShowBracket(bs[1..], s);
      }
      BitOver(bs[0], Show(bs[1..]) + s);
      assert Show(bs) + s == ShowBit(bs[0]) + (Show(bs[1..]) + s);
      assert SayBit(bs[0]) + (Say(bs[1..]) + Strip(s)) == Say(bs) + Strip(s);
    }
  }

  lemma BitsAlone(bs: seq<Bit>)
    requires GoodBits(bs)
    ensures Invokes(Show(bs)) == [] && Strip(Show(bs)) == Say(bs)
  {
    hide GoodBits;
    BitsOver(bs, "");
    assert Show(bs) + "" == Show(bs) && Say(bs) + "" == Say(bs);
  }

  /** The calls found are those printed, and stripping leaves the prose. */
  lemma {:induction false} CallsOf(cs: seq<Call>, after: seq<Bit>)
    requires Good(cs, after)
    ensures Invokes(Print(cs, after)) == FoundCalls(cs) && Strip(Print(cs, after)) == Prose(cs, after)
  {
    TagLetters();
    hide OpenTag, Close, InvokeTag, InvokeAt, PrintParams, Show, Say, GoodBits;
    if cs == [] {
      BitsAlone(after);
    } else {
      var c, x := cs[0], Print(cs[1..], after);
      var y := OpenTag(InvokeTag(), c.name, NoHint) + (PrintParams(c.params, c.tail) + (Close(InvokeTag()) + x));
      OpenTagFacts(InvokeTag(), c.name, NoHint);
      BitsOver(c.before, y);
      CallOf(c, x);
      NothingAt();
      CallsOf(cs[1..], after);
    }
  }

  // ----- clean text is left alone -----

  lemma QuoteLast(s: string)
    requires s != [] && s[|s| - 1] == '"'
    ensures TrimNoise(s) == s
  {
  }

  lemma HintEnds(h: Hint)
    ensures HintText(h) == "" || (HintText(h)[|HintText(h)| - 1] == '"' && '>' !in HintText(h))
  {
    var t, f := TrueAttr(), FalseAttr();
    assert t[|t| - 1] == '"' && f[|f| - 1] == '"';
  }

  /** Noise stops at a tag name. */
  lemma NoNoise(tag: string, w: string)
    requires tag == InvokeTag() || tag == ParameterTag()
    ensures SkipNoise(tag + w) == tag + w && (tag + w)[0] != '/'
    ensures TagAt(tag + w) == Some((tag, w))
    ensures SkipNoise("/" + (tag + w)) == "/" + (tag + w)
  {
    TagLetters();
    hide Dsml, InvokeTag, ParameterTag, ToolCallsTag, FunctionCallsTag;
    ExpectHead(tag, w);
    assert ("/" + (tag + w))[0] == '/';
  }

  /** The attributes of a printed tag reach to its last quote. */
  lemma Attributes(name: string, h: Hint, r: string)
    requires Free(name)
    ensures var attrs := " " + (NameAttr() + (name + ("\"" + HintText(h))));
            && Break(" " + (NameAttr() + (name + ("\"" + (HintText(h) + (">" + r))))), '>') == Some((attrs, r))
            && TrimNoise(attrs) == attrs
  {
    Literals();
    HintEnds(h);
    hide NameAttr, HintText, Break;
    var n, t := NameAttr(), HintText(h);
    var attrs := " " + (n + (name + ("\"" + t)));
    assert '>' !in attrs;
    BreakAt(attrs, '>', r);
    Shift4(" ", n, name, "\"", t, ['>'] + r);
    QuoteLast(attrs);
  }

  lemma LeakParts(tag: string, attrs: string, w: string, r: string)
    requires tag == InvokeTag() || tag == ParameterTag()
    requires Break(w, '>') == Some((attrs, r)) && TrimNoise(attrs) == attrs
    ensures LeakAt(Open(tag) + w) == Some(("<" + (tag + (attrs + ">")), r))
  {
    NoNoise(tag, w);
    hide SkipNoise, TagAt, LeakAt, Break, TrimNoise, InvokeTag, ParameterTag;
    assert Open(tag) + w == "<" + (tag + w);
    LeakRead(tag + w, false, tag + w, tag, w);
    assert "" + (tag + (attrs + ">")) == tag + (attrs + ">");
  }

  /** A printed opening tag is its own normal form. */
  lemma LeakOfOpen(tag: string, name: string, h: Hint, r: string)
    requires (tag == InvokeTag() || tag == ParameterTag()) && Free(name)
    ensures LeakAt(OpenTag(tag, name, h) + r) == Some((OpenTag(tag, name, h), r))
  {
    hide NameAttr, HintText, LeakAt, OpenTag, Break, TrimNoise, InvokeTag, ParameterTag, Open;
    Attributes(name, h, r);
    LeakParts(tag, " " + (NameAttr() + (name + ("\"" + HintText(h)))),
              " " + (NameAttr() + (name + ("\"" + (HintText(h) + (">" + r))))), r);
    TagShape(tag, name, h, r);
    TagText(tag, name, h);
  }

  lemma TagText(tag: string, name: string, h: Hint)
    ensures OpenTag(tag, name, h) == "<" + (tag + (" " + (NameAttr() + (name + ("\"" + HintText(h)))) + ">"))
  {
    hide NameAttr, HintText;
    Shift4(" ", NameAttr(), name, "\"", HintText(h), ">");
  }

  lemma CloseText(tag: string, r: string)
    ensures Close(tag) + r == "<" + ("/" + (tag + (['>'] + r)))
    ensures Close(tag) == "<" + ("/" + (tag + ([] + ">")))
  {
    assert [] + ">" == ">";
    assert tag + ">" + r == tag + (">" + r);
  }

  lemma LeakOfClose(tag: string, r: string)
    requires tag == InvokeTag() || tag == ParameterTag()
    ensures LeakAt(Close(tag) + r) == Some((Close(tag), r))
  {
    var w := ['>'] + r;
    CloseText(tag, r);
    NoNoise(tag, w);
    BreakAt([], '>', r);
    assert TrimNoise([]) == [] && [] + w == w;
    hide SkipNoise, TagAt, LastDsml, InvokeTag, ParameterTag, Break, TrimNoise, Close;
    var t := "/" + (tag + w);
    assert ("<" + t)[1..] == t && ("<" + t)[0] == '<' && t[0] == '/' && t[1..] == tag + w;
  }

  lemma NormalizeTag(tag: string, s: string)
    requires tag != [] && LeakAt(tag + s) == Some((tag, s))
    ensures Normalize(tag + s) == tag + Normalize(s)
  {
    hide LeakAt;
  }

  lemma {:induction false} NormalizeParams(ps: seq<Param>, x: string)
    requires GoodParams(ps)
    ensures Normalize(PrintParams(ps, x)) == PrintParams(ps, Normalize(x))
  {
    TagLetters();
    hide OpenTag, Close, ParameterTag, Normalize, LeakAt, Untagged, Passes;
    if ps != [] {
      var p, t := ps[0], ParameterTag();
      var rest := PrintParams(ps[1..], x);
      var open := OpenTag(t, p.key, p.hint);
      NormalizeParams(ps[1..], x);
      OpenTagFacts(t, p.key, p.hint);
      CloseFacts(t);
      UntaggedPasses(p.before, open + (p.value + (Close(t) + rest)));
      NormalizeOver(p.before, open + (p.value + (Close(t) + rest)));
      LeakOfOpen(t, p.key, p.hint, p.value + (Close(t) + rest));
      NormalizeTag(open, p.value + (Close(t) + rest));
      UntaggedPasses(p.value, Close(t) + rest);
      NormalizeOver(p.value, Close(t) + rest);
      LeakOfClose(t, rest);
      NormalizeTag(Close(t), rest);
    }
  }

  /** A bare DSML tag holds no other tag name, and is read as a tag itself. */
  lemma LeakOfDsml(slash: bool, r: string)
    ensures LeakAt("<" + ((if slash then "/" else "") + (Dsml() + (['>'] + r)))) ==
            Some(("<" + ((if slash then "/" else "") + (Dsml() + ([] + ">"))), r))
  {
    var w, sl := ['>'] + r, if slash then "/" else "";
    var t := Dsml() + w;
    DsmlParts(slash, t);
    NothingTagged(w);
    DsmlRead(w);
    SlashStops(t);
    ReassembledPlain(sl, Dsml(), r);
    hide SkipNoise, TagAt, LastDsml, Dsml, Reassembled;
  }

  lemma DsmlParts(slash: bool, t: string)
    requires t != [] && t[0] != '/'
    ensures var u := (if slash then "/" else "") + t;
            ("<" + u)[1..] == u && u != [] && (u[0] == '/' <==> slash) && (if slash then u[1..] else u) == t
  {
    assert "" + t == t && ("/" + t)[1..] == t;
  }

  lemma ReassembledPlain(slash: string, tag: string, r: string)
    ensures Reassembled(slash, tag, ['>'] + r) == Some(("<" + (slash + (tag + ([] + ">"))), r))
  {
    hide Break;
    BreakAt([], '>', r);
    assert [] + (['>'] + r) == ['>'] + r && TrimNoise([]) == [];
  }

  lemma NothingTagged(w: string)
    requires w != [] && w[0] == '>'
    ensures SkipNoise(w) == w && TagAt(w).None? && LastDsml(w).None?
  {
    TagLetters();
    TagNames();
    hide Dsml, InvokeTag, ParameterTag, ToolCallsTag, FunctionCallsTag;
  }

  lemma DsmlRead(w: string)
    requires w != [] && w[0] == '>'
    ensures SkipNoise(Dsml() + w) == w && LastDsml(Dsml() + w) == Some(w)
    ensures (Dsml() + w)[0] == 'D'
  {
    NothingTagged(w);
    TagLetters();
    hide Dsml;
    ExpectHead(Dsml(), w);
  }

  lemma LeakOfWrapper(slash: bool, tag: string, r: string)
    requires WrapsCalls(tag)
    ensures LeakAt(WrapperTag(slash, tag) + r) == Some((WrapperTag(slash, tag), r))
  {
    if tag == Dsml() {
      TagStart(slash, tag, r);
      LeakOfDsml(slash, r);
      hide LeakAt, Dsml;
      assert [] + ">" == ">" && "" + (tag + (['>'] + r)) == tag + (['>'] + r);
    } else {
      var p := Leaked("", slash, "", tag, "", "");
      assert GoodPiece(p) by { hide LeakAt; }
      hide LeakAt, GoodPiece, ToolCallsTag, FunctionCallsTag, Dsml;
      LeakOf(p, r);
      WrapperText(slash, tag, r);
    }
  }

  lemma WrapperText(slash: bool, tag: string, r: string)
    ensures WrapperTag(slash, tag) == PlainTag(slash, tag, "")
    ensures WrapperTag(slash, tag) + r ==
            "<" + ("" + ((if slash then "/" + "" else "") + (tag + (("" + "") + (">" + r)))))
  {
    assert "" + ">" == ">" && "" + "" == "" && "" + (">" + r) == ">" + r && "/" + "" == "/";
    var sl := if slash then "/" else "";
    assert sl + (tag + ">") + r == sl + (tag + (">" + r));
    assert "" + (sl + (tag + (">" + r))) == sl + (tag + (">" + r));
    assert "<" + (sl + (tag + ">")) + r == "<" + (sl + (tag + ">") + r);
  }

  lemma NormalizeBit(b: Bit, s: string)
    requires GoodBit(b) && (b.Words? ==> Bracket(s))
    ensures Normalize(ShowBit(b) + s) == ShowBit(b) + Normalize(s)
  {
    hide Normalize, WrapperTag, ToolCallsTag, FunctionCallsTag, LeakAt, Bracket, Untagged, Passes;
    match b {
      case Words(text) =>
        UntaggedPasses(text, s);
        NormalizeOver(text, s);
      case Wrapper(slash, tag) =>
        LeakOfWrapper(slash, tag, s);
        WrapperLetters(slash, tag);
        NormalizeTag(WrapperTag(slash, tag), s);
    }
  }

  lemma EmptyIsClean()
    ensures Normalize("") == ""
  {
  }

  lemma {:induction false} NormalizeBits(bs: seq<Bit>, s: string)
    requires GoodBits(bs) && Bracket(s)
    ensures Normalize(Show(bs) + s) == Show(bs) + Normalize(s)
  {
    hide Normalize, ShowBit, GoodBit, Bracket;
    if bs == [] {
      assert "" + s == s && "" + Normalize(s) == Normalize(s);
    } else {
      NormalizeBits(bs[1..], s);
      if bs[0].Words? {
        ShowBracket(bs[1..], s);
      }
      NormalizeBit(bs[0], Show(bs[1..]) + s);
      assert Show(bs) + s == ShowBit(bs[0]) + (Show(bs[1..]) + s);
      assert Show(bs) + Normalize(s) == ShowBit(bs[0]) + (Show(bs[1..]) + Normalize(s));
    }
  }

  /** The normalizer leaves the printed form unchanged. */
  lemma {:induction false} NormalizeClean(cs: seq<Call>, after: seq<Bit>)
    requires Good(cs, after)
    ensures Normalize(Print(cs, after)) == Print(cs, after)
  {
    TagLetters();
    hide OpenTag, Close, InvokeTag, Normalize, LeakAt, PrintParams, Show, GoodBits, Untagged, Passes;
    if cs == [] {
      NormalizeBits(after, "");
      EmptyIsClean();
      assert Show(after) + "" == Show(after);
    } else {
      var c, t := cs[0], InvokeTag();
      var rest := Print(cs[1..], after);
      var open, body := OpenTag(t, c.name, NoHint), PrintParams(c.params, c.tail);
      NormalizeClean(cs[1..], after);
      OpenTagFacts(t, c.name, NoHint);
      CloseFacts(t);
      NormalizeBits(c.before, open + (body + (Close(t) + rest)));
      LeakOfOpen(t, c.name, NoHint, body + (Close(t) + rest));
      NormalizeTag(open, body + (Close(t) + rest));
      PrintParamsAppend(c.params, c.tail, Close(t) + rest);
      NormalizeParams(c.params, c.tail + (Close(t) + rest));
      UntaggedPasses(c.tail, Close(t) + rest);
      NormalizeOver(c.tail, Close(t) + rest);
      LeakOfClose(t, rest);
      NormalizeTag(Close(t), rest);
    }
  }

  lemma {:induction false} HintedOver(a: string, s: string)
    ensures Hinted(s) ==> Hinted(a + s)
  {
    hide HintAt;
    if a == [] {
      assert a + s == s;
    } else {
      assert (a + s)[1..] == a[1..] + s;
      HintedOver(a[1..], s);
    }
  }

  lemma {:induction false} NotHinted(a: string)
    requires '<' !in a
    ensures !Hinted(a)
  {
    hide HintAt;
    if a != [] {
      NeedsTag(a);
      NotHinted(a[1..]);
    }
  }

  lemma PrintedIsHinted(cs: seq<Call>, after: seq<Bit>)
    requires cs != []
    ensures Hinted(Print(cs, after))
  {
    var c := cs[0];
    var y := PrintParams(c.params, c.tail) + (Close(InvokeTag()) + Print(cs[1..], after));
    TagShape(InvokeTag(), c.name, NoHint, y);
    hide NameAttr, HintText, PrintParams, OpenTag, Print, Show;
    assert Open(InvokeTag()) <= OpenTag(InvokeTag(), c.name, NoHint) + y;
    HintedOver(Show(c.before), OpenTag(InvokeTag(), c.name, NoHint) + y);
    PrintStart(cs, after);
  }

  lemma PrintStart(cs: seq<Call>, after: seq<Bit>)
    requires cs != []
    ensures Print(cs, after) ==
            Show(cs[0].before) + (OpenTag(InvokeTag(), cs[0].name, NoHint)
                                  + (PrintParams(cs[0].params, cs[0].tail) + (Close(InvokeTag()) + Print(cs[1..], after))))
  {
    hide OpenTag, Close, PrintParams, Show;
  }

  // ----- leaked delimiters around a tag -----

  /** A stretch of pipes, white space and DSML. */
  predicate NoiseRun(s: string) {
    SkipNoise(s) == ""
  }

  predicate TagName(tag: string) {
    tag == InvokeTag() || tag == ParameterTag() || tag == ToolCallsTag() || tag == FunctionCallsTag()
  }

  /** Either text in which no tag begins, or a tag with leaked noise around its slash and behind its attributes. */
  datatype Piece =
    | Plain(text: string)
    | Leaked(noise: string, slash: bool, more: string, tag: string, attrs: string, trail: string)

  predicate GoodPiece(p: Piece) {
    match p
    case Plain(text) => Untagged(text)
    case Leaked(noise, slash, more, tag, attrs, trail) =>
      && NoiseRun(noise) && NoiseRun(more) && (!slash ==> more == "") && TagName(tag)
      && '>' !in attrs && (attrs != "" ==> !IsNoise(attrs[|attrs| - 1]))
      && forall i :: 0 <= i < |trail| ==> IsNoise(trail[i])
  }

  /** Two stretches of text in a row are written as one. */
  predicate GoodPieces(ps: seq<Piece>) {
    ps == [] || (GoodPiece(ps[0]) && (ps[0].Plain? && |ps| > 1 ==> ps[1].Leaked?) && GoodPieces(ps[1..]))
  }

  function LeakedText(ps: seq<Piece>): string {
    if ps == [] then ""
    else
      match ps[0]
      case Plain(text) => text + LeakedText(ps[1..])
      case Leaked(noise, slash, more, tag, attrs, trail) =>
        "<" + (noise + ((if slash then "/" + more else "") + (tag + ((attrs + trail) + (">" + LeakedText(ps[1..]))))))
  }

  function PlainTag(slash: bool, tag: string, attrs: string): string {
    "<" + ((if slash then "/" else "") + (tag + (attrs + ">")))
  }

  function PlainText(ps: seq<Piece>): string {
    if ps == [] then ""
    else
      match ps[0]
      case Plain(text) => text + PlainText(ps[1..])
      case Leaked(_, slash, _, tag, attrs, _) => PlainTag(slash, tag, attrs) + PlainText(ps[1..])
  }

  lemma {:induction false} SkipRun(noise: string, s: string)
    requires NoiseRun(noise)
    ensures SkipNoise(noise + s) == SkipNoise(s)
    decreases |noise|
  {
    if noise == [] {
      assert noise + s == s;
    } else if IsNoise(noise[0]) {
      assert (noise + s)[1..] == noise[1..] + s;
      SkipRun(noise[1..], s);
    } else {
      SkipDsml(noise, s);
      SkipRun(noise[4..], s);
    }
  }

  lemma SkipDsml(noise: string, s: string)
    requires noise != [] && !IsNoise(noise[0]) && NoiseRun(noise)
    ensures |noise| >= 4 && NoiseRun(noise[4..]) && SkipNoise(noise + s) == SkipNoise(noise[4..] + s)
  {
    var d := Dsml();
    assert |d| == 4 && d <= noise;
    assert (noise + s)[..4] == noise[..4] && (noise + s)[4..] == noise[4..] + s;
  }

  lemma TagNames()
    ensures ToolCallsTag() != [] && ToolCallsTag()[0] == 't' && '<' !in ToolCallsTag()
    ensures FunctionCallsTag() != [] && FunctionCallsTag()[0] == 'f' && '<' !in FunctionCallsTag()
  {
  }

  lemma TagIsRead(tag: string, w: string)
    requires TagName(tag)
    ensures tag != [] && SkipNoise(tag + w) == tag + w && (tag + w)[0] != '/' && TagAt(tag + w) == Some((tag, w))
  {
    TagLetters();
    TagNames();
    hide Dsml, InvokeTag, ParameterTag, ToolCallsTag, FunctionCallsTag;
    ExpectHead(tag, w);
  }

  lemma {:induction false} TrimTrail(attrs: string, trail: string)
    requires attrs != "" ==> !IsNoise(attrs[|attrs| - 1])
    requires forall i :: 0 <= i < |trail| ==> IsNoise(trail[i])
    ensures TrimNoise(attrs + trail) == attrs
  {
    if trail == [] {
      assert attrs + trail == attrs;
    } else {
      var s := attrs + trail;
      assert s[..|s| - 1] == attrs + trail[..|trail| - 1];
      TrimTrail(attrs, trail[..|trail| - 1]);
    }
  }

  lemma LeakRead(s: string, slashed: bool, t: string, tag: string, w: string)
    requires var a := SkipNoise(s);
             (a != [] && a[0] == '/') == slashed && (if slashed then SkipNoise(a[1..]) else a) == t
    requires TagAt(t) == Some((tag, w))
    ensures LeakAt("<" + s) == Reassembled(if slashed then "/" else "", tag, w)
  {
    hide SkipNoise, TagAt, LastDsml, Reassembled;
    assert ("<" + s)[1..] == s;
  }

  lemma ReassembledOf(slash: string, tag: string, attrs: string, trail: string, r: string)
    requires '>' !in attrs && (attrs != "" ==> !IsNoise(attrs[|attrs| - 1]))
    requires forall i :: 0 <= i < |trail| ==> IsNoise(trail[i])
    ensures Reassembled(slash, tag, (attrs + trail) + (['>'] + r)) == Some(("<" + (slash + (tag + (attrs + ">"))), r))
  {
    hide Break, TrimNoise;
    assert '>' !in attrs + trail;
    BreakAt(attrs + trail, '>', r);
    TrimTrail(attrs, trail);
  }

  lemma LeakUnslashed(noise: string, t: string, tag: string, w: string)
    requires NoiseRun(noise) && t != [] && t[0] != '/' && SkipNoise(t) == t && TagAt(t) == Some((tag, w))
    ensures LeakAt("<" + (noise + ("" + t))) == Reassembled("", tag, w)
  {
    hide TagAt, LeakAt, Reassembled;
    assert "" + t == t;
    SkipRun(noise, t);
    LeakRead(noise + t, false, t, tag, w);
  }

  lemma LeakSlashed(noise: string, more: string, t: string, tag: string, w: string)
    requires NoiseRun(noise) && NoiseRun(more) && SkipNoise(t) == t && TagAt(t) == Some((tag, w))
    ensures LeakAt("<" + (noise + (("/" + more) + t))) == Reassembled("/", tag, w)
  {
    hide TagAt, LeakAt, Reassembled, NoiseRun, SkipNoise;
    var u := ("/" + more) + t;
    assert u == "/" + (more + t) && u[0] == '/' && u[1..] == more + t;
    SkipRun(noise, u);
    SlashStops(more + t);
    SkipRun(more, t);
    LeakRead(noise + u, true, t, tag, w);
  }

  /** The noise in front of the slash or the tag, between them and behind the attributes goes. */
  lemma LeakOf(p: Piece, r: string)
    requires p.Leaked? && GoodPiece(p)
    ensures LeakAt("<" + (p.noise + ((if p.slash then "/" + p.more else "")
                                     + (p.tag + ((p.attrs + p.trail) + (">" + r)))))) ==
            Some((PlainTag(p.slash, p.tag, p.attrs), r))
  {
    var w := (p.attrs + p.trail) + (['>'] + r);
    var t := p.tag + w;
    TagIsRead(p.tag, w);
    ReassembledOf(if p.slash then "/" else "", p.tag, p.attrs, p.trail, r);
    hide TagAt, TagName, Reassembled, LeakAt, NoiseRun, SkipNoise;
    if p.slash {
      LeakSlashed(p.noise, p.more, t, p.tag, w);
    } else {
      LeakUnslashed(p.noise, t, p.tag, w);
    }
  }

  lemma SlashStops(s: string)
    ensures SkipNoise("/" + s) == "/" + s
  {
    TagLetters();
    hide Dsml;
  }

  /** Normalizing removes leaked noise from every tag and changes nothing else. */
  lemma {:induction false} NormalizeLeaked(ps: seq<Piece>)
    requires GoodPieces(ps)
    ensures Normalize(LeakedText(ps)) == PlainText(ps)
  {
    hide GoodPiece, Normalize;
    if ps == [] {
      EmptyIsClean();
    } else {
      assert [ps[0]] + ps[1..] == ps;
      NormalizeLeaked(ps[1..]);
      NormalizePiece(ps[0], ps[1..]);
    }
  }

  lemma NormalizePiece(p: Piece, rest: seq<Piece>)
    requires GoodPiece(p) && Normalize(LeakedText(rest)) == PlainText(rest)
    requires p.Plain? && rest != [] ==> rest[0].Leaked?
    ensures Normalize(LeakedText([p] + rest)) == PlainText([p] + rest)
  {
    assert ([p] + rest)[1..] == rest && ([p] + rest)[0] == p;
    if p.Plain? {
      UntaggedPasses(p.text, LeakedText(rest));
      NormalizeOver(p.text, LeakedText(rest));
    } else {
      LeakOf(p, LeakedText(rest));
      hide LeakAt, GoodPiece, PlainTag;
      var s := LeakedText([p] + rest);
      assert LeakAt(s) == Some((PlainTag(p.slash, p.tag, p.attrs), LeakedText(rest)));
    }
  }

  // ----- recovery -----

  /** A recovered argument: a string, or JSON text. */
  datatype Arg = Text(s: string) | Json(raw: string)

  datatype Recovered = Recovered(id: string, name: string, args: map<string, Arg>)

  /** JSON only where the hint asks for it and the text parses; `valid` stands for the parser. */
  function ArgOf(f: Found, valid: string -> bool): Arg {
    if f.hint.IsJson? && valid(TrimSpace(f.body)) then Json(TrimSpace(f.body)) else Text(f.body)
  }

  /** A later parameter of the same name replaces an earlier one. */
  function Args(fs: seq<Found>, valid: string -> bool): map<string, Arg> {
    if fs == [] then map[]
    else Args(fs[..|fs| - 1], valid)[fs[|fs| - 1].name := ArgOf(fs[|fs| - 1], valid)]
  }

  method ParseInvokeParameters(body: string, valid: string -> bool) returns (out: map<string, Arg>)
    ensures out == Args(Parameters(body), valid)
  {
    var found := Parameters(body);
    out := map[];
    for k := 0 to |found|
      invariant out == Args(found[..k], valid)
    {
      assert found[..k + 1][..k] == found[..k];
      if found[k].hint.IsJson? {
        var raw := TrimSpace(found[k].body);
        if valid(raw) {
          out := out[found[k].name := Json(raw)];
          continue;
        }
      }
      out := out[found[k].name := Text(found[k].body)];
    }
    assert found[..|found|] == found;
  }

  function Digits(n: nat): (s: string)
    ensures s != []
  {
    if n < 10 then [('0' as int + n) as char] else Digits(n / 10) + [('0' as int + n % 10) as char]
  }

  lemma {:induction false} DigitsInjective(m: nat, n: nat)
    requires Digits(m) == Digits(n)
    ensures m == n
  {
    var s := Digits(m);
    if m >= 10 && n >= 10 {
      assert s[..|s| - 1] == Digits(m / 10) == Digits(n / 10);
      DigitsInjective(m / 10, n / 10);
      assert s[|s| - 1] == ('0' as int + m % 10) as char == ('0' as int + n % 10) as char;
    }
  }

  function RecoveredId(i: nat): string {
    "recovered_" + Digits(i)
  }

  /** The number that a row of decimal digits stands for. */
  function Decimal(s: string): nat {
    if s == [] then 0
    else Decimal(s[..|s| - 1]) * 10 + if '0' <= s[|s| - 1] <= '9' then (s[|s| - 1] as int - '0' as int) else 0
  }

  /** The k-th recovered call of a reply is named after its index, in decimals. */
  lemma {:induction false} DigitsRead(n: nat)
    ensures Decimal(Digits(n)) == n && (forall c :: c in Digits(n) ==> '0' <= c <= '9')
    ensures n > 0 ==> Digits(n)[0] != '0'
  {
    var s := Digits(n);
    if n >= 10 {
      DigitsRead(n / 10);
      assert s[..|s| - 1] == Digits(n / 10);
    } else {
      assert s[..0] == [];
    }
  }

  lemma RecoveredIdGiven(i: nat)
    ensures RecoveredId(i) != ""
  {
    hide Digits;
  }

  /** The calls of one reply never share an id. */
  lemma RecoveredIdsDistinct(i: nat, j: nat)
    requires RecoveredId(i) == RecoveredId(j)
    ensures i == j
  {
    assert RecoveredId(i)[10..] == Digits(i) && RecoveredId(j)[10..] == Digits(j);
    DigitsInjective(i, j);
  }

  /** The k-th match becomes the k-th call. */
  function CallsFrom(fs: seq<Found>, valid: string -> bool): (r: seq<Recovered>)
    ensures |r| == |fs|
  {
    if fs == [] then []
    else
      var k := |fs| - 1;
      CallsFrom(fs[..k], valid) + [Recovered(RecoveredId(k), fs[k].name, Args(Parameters(fs[k].body), valid))]
  }

  function Recover(content: string, valid: string -> bool): (seq<Recovered>, string) {
    if !Hinted(content) then ([], content)
    else
      var normalized := Normalize(content);
      var matches := Invokes(normalized);
      (CallsFrom(matches, valid), if matches == [] && normalized == content then content else TrimSpace(Strip(normalized)))
  }

  method RecoverToolCalls(content: string, valid: string -> bool) returns (calls: seq<Recovered>, residual: string)
    ensures (calls, residual) == Recover(content, valid)
  {
    hide Hinted, Normalize, Invokes, Strip, TrimSpace;
    if !Hinted(content) {
      return [], content;
    }
    var normalized := Normalize(content);
    var matches := Invokes(normalized);
    if |matches| == 0 {
      if normalized == content {
        return [], content;
      }
      return [], TrimSpace(Strip(normalized));
    }
    calls := [];
    for i := 0 to |matches|
      invariant calls == CallsFrom(matches[..i], valid)
    {
      assert matches[..i + 1][..i] == matches[..i];
      var args := ParseInvokeParameters(matches[i].body, valid);
      calls := calls + [Recovered(RecoveredId(i), matches[i].name, args)];
    }
    assert matches[..|matches|] == matches;
    residual := TrimSpace(Strip(normalized));
  }

  /** A model reply; `raw` says that the provider's own rendering of it is kept. */
  class Response {
    var content: string
    var calls: seq<Recovered>
    var raw: bool

    constructor (content: string, calls: seq<Recovered>, raw: bool)
      ensures this.content == content && this.calls == calls && this.raw == raw
    {
      this.content, this.calls, this.raw := content, calls, raw;
    }
  }

  /** Only a reply without calls of its own is touched, and its provider rendering is dropped
      whenever the text no longer says the same. */
  method MaybeRecoverToolCalls(resp: Response, valid: string -> bool)
    modifies resp
    ensures old(resp.calls) != [] || old(resp.content) == "" ==>
              resp.calls == old(resp.calls) && resp.content == old(resp.content) && resp.raw == old(resp.raw)
    ensures old(resp.calls) == [] && old(resp.content) != "" ==>
              && (resp.calls, resp.content) == Recover(old(resp.content), valid)
              && resp.raw == (old(resp.raw) && resp.calls == [] && resp.content == old(resp.content))
  {
    if |resp.calls| > 0 || resp.content == "" {
      return;
    }
    var recovered, residual := RecoverToolCalls(resp.content, valid);
    if |recovered| == 0 {
      if residual != resp.content {
        resp.content := residual;
        resp.raw := false;
      }
      return;
    }
    resp.calls := recovered;
    resp.content := residual;
    resp.raw := false;
  }

  method ScrubLeakedToolCallContent(content: string, valid: string -> bool) returns (text: string)
    ensures text == if Recover(content, valid) == ([], content) then content else TrimSpace(Recover(content, valid).1)
  {
    hide Recover;
    var recovered, residual := RecoverToolCalls(content, valid);
    if |recovered| > 0 || residual != content {
      return TrimSpace(residual);
    }
    return content;
  }

  lemma {:induction false} CallsFromAt(fs: seq<Found>, valid: string -> bool, k: nat)
    requires k < |fs|
    ensures CallsFrom(fs, valid)[k] == Recovered(RecoveredId(k), fs[k].name, Args(Parameters(fs[k].body), valid))
  {
    hide Args, Parameters, RecoveredId;
    if k < |fs| - 1 {
      CallsFromAt(fs[..|fs| - 1], valid, k);
    }
  }

  lemma {:induction false} FoundCallsAt(cs: seq<Call>, k: nat)
    requires k < |cs|
    ensures |FoundCalls(cs)| == |cs|
    ensures FoundCalls(cs)[k] == Found(cs[k].name, NoHint, PrintParams(cs[k].params, cs[k].tail))
  {
    hide PrintParams;
    if k > 0 {
      FoundCallsAt(cs[1..], k - 1);
    } else if |cs| > 1 {
      FoundCallsAt(cs[1..], 0);
    }
  }

  lemma {:induction false} GoodAt(cs: seq<Call>, after: seq<Bit>, k: nat)
    requires Good(cs, after) && k < |cs|
    ensures GoodCall(cs[k])
  {
    if k > 0 {
      GoodAt(cs[1..], after, k - 1);
    }
  }

  /** The arguments hold the value of the last parameter of each key, and nothing else: JSON where
      the hint says that it is no string and the parser takes it, and the text as it is otherwise. */
  ghost predicate Holds(args: map<string, Arg>, ps: seq<Param>, valid: string -> bool) {
    && (forall key :: key in args <==> exists i :: 0 <= i < |ps| && ps[i].key == key)
    && (forall i :: 0 <= i < |ps| && LastOfKey(ps, i) && ps[i].key in args ==>
          var json, value := TrimSpace(ps[i].value), ps[i].value;
          args[ps[i].key] == if ps[i].hint.IsJson? && valid(json) then Json(json) else Text(value))
  }

  predicate LastOfKey(ps: seq<Param>, i: int)
    requires 0 <= i < |ps|
  {
    forall j :: i < j < |ps| ==> ps[j].key != ps[i].key
  }

  lemma {:induction false} FoundParamsSnoc(ps: seq<Param>, p: Param)
    ensures FoundParams(ps + [p]) == FoundParams(ps) + [Found(p.key, p.hint, p.value)]
  {
    if ps == [] {
      assert [] + [p] == [p] && [p][1..] == [];
    } else {
      assert (ps + [p])[1..] == ps[1..] + [p];
      FoundParamsSnoc(ps[1..], p);
    }
  }

  lemma HoldsNext(args: map<string, Arg>, ps: seq<Param>, p: Param, valid: string -> bool)
    requires Holds(args, ps, valid)
    ensures Holds(args[p.key := ArgOf(Found(p.key, p.hint, p.value), valid)], ps + [p], valid)
  {
    hide TrimSpace;
    var qs := ps + [p];
    var out := args[p.key := ArgOf(Found(p.key, p.hint, p.value), valid)];
    forall key ensures key in out <==> exists i :: 0 <= i < |qs| && qs[i].key == key {
      if key == p.key {
        assert qs[|ps|].key == key;
      } else {
        assert (exists i :: 0 <= i < |ps| && ps[i].key == key) ==> exists i :: 0 <= i < |qs| && qs[i].key == key by {
          if i :| 0 <= i < |ps| && ps[i].key == key {
            assert qs[i].key == key;
          }
        }
      }
    }
    forall i | 0 <= i < |qs| && LastOfKey(qs, i) ensures i < |ps| ==> LastOfKey(ps, i) && qs[i].key != p.key {
      if i < |ps| {
        assert qs[|ps|].key != qs[i].key;
        assert forall j :: i < j < |ps| ==> qs[j] == ps[j];
      }
    }
  }

  lemma NothingHeld(valid: string -> bool)
    ensures Holds(map[], [], valid)
  {
  }

  /** The arguments of a printed call. */
  lemma {:induction false} ArgsHold(ps: seq<Param>, valid: string -> bool)
    ensures Holds(Args(FoundParams(ps), valid), ps, valid)
  {
    hide Holds, ArgOf;
    if ps == [] {
      NothingHeld(valid);
    } else {
      var front, p := ps[..|ps| - 1], ps[|ps| - 1];
      ArgsHold(front, valid);
      FoundParamsSnoc(front, p);
      assert front + [p] == ps;
      HoldsNext(Args(FoundParams(front), valid), front, p, valid);
    }
  }

  /** What recovery makes of text whose normal form is printed calls. */
  ghost predicate ReadBack(content: string, cs: seq<Call>, after: seq<Bit>, valid: string -> bool) {
    var (calls, residual) := Recover(content, valid);
    && |calls| == |cs| && residual == TrimSpace(Prose(cs, after))
    && forall k :: 0 <= k < |cs| ==>
         calls[k].id == RecoveredId(k) && calls[k].name == cs[k].name && Holds(calls[k].args, cs[k].params, valid)
  }

  lemma ReadBackNormal(content: string, cs: seq<Call>, after: seq<Bit>, valid: string -> bool)
    requires Good(cs, after) && cs != [] && Hinted(content) && Normalize(content) == Print(cs, after)
    ensures ReadBack(content, cs, after, valid)
  {
    hide Hinted, Normalize, Invokes, Strip, TrimSpace, Print, Prose, Args, Parameters, RecoveredId, Good, CallsFrom;
    hide FoundParams, FoundCalls, Holds;
    CallsOf(cs, after);
    forall k | 0 <= k < |cs|
      ensures |FoundCalls(cs)| == |cs|
      ensures CallsFrom(FoundCalls(cs), valid)[k] ==
              Recovered(RecoveredId(k), cs[k].name, Args(FoundParams(cs[k].params), valid))
    {
      FoundCallsAt(cs, k);
      CallsFromAt(FoundCalls(cs), valid, k);
      GoodAt(cs, after, k);
      ParametersOf(cs[k].params, cs[k].tail);
    }
    forall k | 0 <= k < |cs| ensures Holds(Args(FoundParams(cs[k].params), valid), cs[k].params, valid) {
      ArgsHold(cs[k].params, valid);
    }
    FoundCallsAt(cs, 0);
  }

  /** Any calls printed in the documented form, amid any prose and any wrapper tags, where neither
      prose nor values hold the beginning of another tag,
      are recovered with the same names and arguments in order under ids 0, 1, 2, ...; what remains
      of the text is the prose, trimmed, with the wrapper tags gone. */
  lemma RoundTrip(cs: seq<Call>, after: seq<Bit>, valid: string -> bool)
    requires Good(cs, after) && cs != []
    ensures ReadBack(Print(cs, after), cs, after, valid)
  {
    hide Hinted, Normalize, Print, Good, ReadBack;
    PrintedIsHinted(cs, after);
    NormalizeClean(cs, after);
    ReadBackNormal(Print(cs, after), cs, after, valid);
  }

  /** So are the same calls with leaked delimiters in their tags, provided that something in the
      text sets the recovery off at all: a plain invoke, or a tag whose noise begins with a pipe. */
  lemma LeakedRoundTrip(ps: seq<Piece>, cs: seq<Call>, after: seq<Bit>, valid: string -> bool)
    requires GoodPieces(ps)
    requires Good(cs, after) && cs != [] && PlainText(ps) == Print(cs, after)
    ensures Hinted(LeakedText(ps)) ==> ReadBack(LeakedText(ps), cs, after, valid)
    ensures !Hinted(LeakedText(ps)) ==> Recover(LeakedText(ps), valid) == ([], LeakedText(ps))
  {
    hide Hinted, Normalize, Print, Good, ReadBack, LeakedText, PlainText, GoodPieces;
    NormalizeLeaked(ps);
    if Hinted(LeakedText(ps)) {
      ReadBackNormal(LeakedText(ps), cs, after, valid);
    }
  }

  /** Leaked wrapper tags without a call are scrubbed: what remains is the prose, trimmed. Text
      that was plain before is not touched, wrapper tags or not. */
  lemma WrappersScrubbed(ps: seq<Piece>, bs: seq<Bit>, valid: string -> bool)
    requires GoodPieces(ps) && GoodBits(bs) && PlainText(ps) == Show(bs)
    ensures Recover(LeakedText(ps), valid) ==
            if Hinted(LeakedText(ps)) && PlainText(ps) != LeakedText(ps) then ([], TrimSpace(Say(bs)))
            else ([], LeakedText(ps))
  {
    hide Hinted, Normalize, Invokes, Strip, TrimSpace, PlainText, LeakedText, Show, Say, GoodPieces, GoodBits;
    NormalizeLeaked(ps);
    BitsAlone(bs);
  }

  lemma {:induction false} HintPassed(a: string, s: string)
    requires '<' !in a
    ensures Hinted(a + s) == Hinted(s)
  {
    hide HintAt;
    if a == [] {
      assert a + s == s;
    } else {
      assert (a + s)[1..] == a[1..] + s && (a + s)[0] == a[0];
      NeedsTag(a + s);
      HintPassed(a[1..], s);
    }
  }

  /** A tag sets nothing off when a letter other than 'i' follows its '<', or else its slash. */
  lemma QuietTag(slash: bool, t: string, s: string)
    requires '<' !in t && t != [] && !IsWs(t[0]) && t[0] != '/' && !PipeNext(t) && (!slash ==> t[0] != 'i')
    ensures Hinted("<" + ((if slash then "/" else "") + (t + s))) == Hinted(s)
  {
    var u := (if slash then "/" else "") + t;
    assert "<" + ((if slash then "/" else "") + (t + s)) == "<" + (u + s) by {
      assert (if slash then "/" else "") + (t + s) == u + s;
    }
    assert ("<" + (u + s))[1..] == u + s;
    HintPassed(u, s);
    assert !HintAt("<" + (u + s)) by {
      hide Hinted;
      assert SkipSlash(u + s) == t + s by {
        assert slash ==> (u + s)[1..] == t + s;
      }
      assert Open(InvokeTag())[1] == 'i' && ("<" + (u + s))[1] == u[0];
    }
  }

  /** One call whose opening tag leaked DSML without a pipe. */
  function QuietLeak(): seq<Piece> {
    [Leaked("DSML ", false, "", InvokeTag(), " " + (NameAttr() + "a\""), ""), Leaked("", true, "", InvokeTag(), "", "")]
  }

  /** Such a reply goes unread: normalized it is a printed call, but nothing sets the recovery off. */
  lemma LeakGoesUnread(valid: string -> bool)
    ensures GoodPieces(QuietLeak())
    ensures PlainText(QuietLeak()) == Print([Call([], "a", [], "")], []) && Good([Call([], "a", [], "")], [])
    ensures Recover(LeakedText(QuietLeak()), valid) == ([], LeakedText(QuietLeak()))
  {
    QuietLeakGood();
    QuietLeakPlain();
    hide Normalize, Print, Good, LeakedText, PlainText, GoodPieces;
    QuietLeakUnhinted();
  }

  lemma NoiseRuns()
    ensures NoiseRun("") && NoiseRun("DSML ")
  {
    assert SkipNoise("") == "" && SkipNoise(" ") == "" by { assert " "[1..] == ""; }
    assert Expect("DSML ", Dsml()) == Some(" ") by { assert "DSML " == Dsml() + " "; ExpectHead(Dsml(), " "); }
  }

  lemma QuietLeakGood()
    ensures GoodPieces(QuietLeak())
    ensures Good([Call([], "a", [], "")], [])
  {
    NoiseRuns();
    hide SkipNoise, NoiseRun;
  }

  lemma QuietLeakPlain()
    ensures PlainText(QuietLeak()) == Print([Call([], "a", [], "")], [])
  {
    var i := InvokeTag();
    hide InvokeTag, NameAttr;
    assert QuietLeak()[1..] == [Leaked("", true, "", i, "", "")] && QuietLeak()[1..][1..] == [];
    assert PlainText(QuietLeak()[1..]) == "</" + i + ">";
    var c := Call([], "a", [], "");
    assert [c][1..] == [] && Print([], []) == "";
    assert Print([c], []) == OpenTag(i, "a", NoHint) + Close(i);
  }

  lemma QuietLeakText(i: string, n: string)
    requires i == InvokeTag() && n == NameAttr()
    ensures LeakedText(QuietLeak()) ==
            "<" + ("" + (("DSML " + (i + (" " + (n + "a\"") + ">"))) + ("<" + ("/" + (i + ">" + "")))))
  {
    hide InvokeTag, NameAttr;
    assert QuietLeak()[1..] == [Leaked("", true, "", i, "", "")] && QuietLeak()[1..][1..] == [];
    assert LeakedText(QuietLeak()[1..]) == "<" + ("/" + (i + ">" + ""));
  }

  lemma QuietLeakUnhinted()
    ensures !Hinted(LeakedText(QuietLeak()))
  {
    var i, n := InvokeTag(), NameAttr();
    var t := "DSML " + (i + (" " + (n + "a\"") + ">"));
    assert '<' !in t && t[0] == 'D' && '<' !in i + ">" && (i + ">")[0] == 'i';
    hide InvokeTag, NameAttr, Hinted, QuietLeak, LeakedText;
    QuietLeakText(i, n);
    QuietTag(true, i + ">", "");
    QuietTag(false, t, "<" + ("/" + (i + ">" + "")));
    assert !Hinted("") by { NotHinted(""); }
  }

  /** The ids start over with every reply, so any two replies with recovered calls share one. */
  lemma RecoveredIdsCollide(a: string, b: string, valid: string -> bool)
    requires Recover(a, valid).0 != [] && Recover(b, valid).0 != []
    ensures Recover(a, valid).0[0].id == Recover(b, valid).0[0].id == RecoveredId(0)
  {
    hide Hinted, Normalize, Invokes, Strip, TrimSpace, Parameters, Args, RecoveredId;
    CallsFromAt(Invokes(Normalize(a)), valid, 0);
    CallsFromAt(Invokes(Normalize(b)), valid, 0);
  }

  /** Text without tags is not touched, not even trimmed. */
  lemma PlainTextUntouched(content: string, valid: string -> bool)
    requires '<' !in content
    ensures Recover(content, valid) == ([], content)
  {
    NotHinted(content);
  }
}
