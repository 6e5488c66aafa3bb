/**
 Compiling a text with `{{name}}` tokens into a template.
 */
module PhraseCompiler {
  import opened Common
  import opened PhraseTemplates

  const OPEN: Unit := 0x7B
  const CLOSE: Unit := 0x7D
  const DASH: Unit := 0x2D

  predicate Space(u: Unit) {
    (0x09 <= u <= 0x0D) || u == 0x20 || u == 0xA0 || u == 0x1680 || (0x2000 <= u <= 0x200A)
    || u == 0x2028 || u == 0x2029 || u == 0x202F || u == 0x205F || u == 0x3000 || u == 0xFEFF
  }

  predicate NameUnit(u: Unit) {
    (0x30 <= u <= 0x39) || (0x41 <= u <= 0x5A) || (0x61 <= u <= 0x7A) || u == 0x5F || u == 0x2E || u == DASH
  }

  /** The end of the run of spaces, or of name units, that starts at `i`. */
  function SpacesEnd(s: Text, i: nat): (e: nat)
    requires i <= |s|
    ensures i <= e <= |s|
    ensures forall k :: i <= k < e ==> Space(s[k])
    decreases |s| - i
  {
    if i < |s| && Space(s[i]) then SpacesEnd(s, i + 1) else i
  }

  function NameEnd(s: Text, i: nat): (e: nat)
    requires i <= |s|
    ensures i <= e <= |s|
    ensures forall k :: i <= k < e ==> NameUnit(s[k])
    decreases |s| - i
  {
    if i < |s| && NameUnit(s[i]) then NameEnd(s, i + 1) else i
  }

  /** A token: `{{`, perhaps a dash, spaces, a name, spaces and `}}`. */
  datatype Token = Token(lead: Text, name: Text, trail: Text)

  predicate Formed(t: Token) {
    && t.name != [] && (forall k :: 0 <= k < |t.name| ==> NameUnit(t.name[k]))
    && (forall k :: 0 <= k < |t.trail| ==> Space(t.trail[k]))
    && (forall k :: 0 <= k < |t.lead| ==> Space(t.lead[k]) || (k == 0 && t.lead[k] == DASH))
  }

  function TokenText(t: Token): Text { [OPEN, OPEN] + t.lead + t.name + t.trail + [CLOSE, CLOSE] }

  /** The token stands in the text at `i`. */
  predicate Stands(s: Text, i: nat, t: Token) {
    Formed(t) && i + |TokenText(t)| <= |s| && s[i..i + |TokenText(t)|] == TokenText(t)
  }

  lemma FivePieces(s: Text, i: nat, a: nat, b: nat, c: nat)
    requires i + 2 <= a <= b <= c && c + 2 <= |s|
    requires s[i] == OPEN && s[i + 1] == OPEN && s[c] == CLOSE && s[c + 1] == CLOSE
    ensures s[i..c + 2] == [OPEN, OPEN] + s[i + 2..a] + s[a..b] + s[b..c] + [CLOSE, CLOSE]
  {
    assert s[i..i + 2] == [OPEN, OPEN] && s[c..c + 2] == [CLOSE, CLOSE];
    assert s[i..c + 2] == s[i..i + 2] + s[i + 2..a] + s[a..b] + s[b..c] + s[c..c + 2];
  }

  /** Spaces, a name, spaces and the closing braces from `j` on. */
  function TokenBody(s: Text, i: nat, j: nat): (t: Option<Token>)
    requires i + 2 <= j <= |s| && s[i] == OPEN && s[i + 1] == OPEN
    requires forall k :: i + 2 <= k < j ==> k == i + 2 && s[k] == DASH
    ensures t.Some? ==> Stands(s, i, t.value)
  {
    var name := SpacesEnd(s, j);
    var trail := NameEnd(s, name);
    var close := SpacesEnd(s, trail);
    if name < trail && close + 2 <= |s| && s[close] == CLOSE && s[close + 1] == CLOSE then
      FivePieces(s, i, name, trail, close);
      Some(Token(s[i + 2..name], s[name..trail], s[trail..close]))
    else None
  }

  /** The token that starts at `i`.  A dash after the braces is left out of the name if a name
      follows it. */
  function TokenAt(s: Text, i: nat): (t: Option<Token>)
    ensures t.Some? ==> Stands(s, i, t.value)
  {
    if i + 2 > |s| || s[i] != OPEN || s[i + 1] != OPEN then None
    else
      var dashed := if i + 2 < |s| && s[i + 2] == DASH then TokenBody(s, i, i + 3) else None;
      if dashed.Some? then dashed else TokenBody(s, i, i + 2)
  }

  /** Where the first token at `from` or later starts; the length of the text if there is none. */
  function NextStart(s: Text, from: nat): (i: nat)
    requires from <= |s|
    ensures from <= i <= |s|
    ensures i < |s| ==> TokenAt(s, i).Some?
    ensures forall k :: from <= k < i ==> TokenAt(s, k).None?
    decreases |s| - from
  {
    if from == |s| || TokenAt(s, from).Some? then from else NextStart(s, from + 1)
  }

  datatype Parts = Parts(literals: seq<Text>, tokens: seq<Token>)

  /** The texts between the tokens from `from` on, and the tokens. */
  function PartsFrom(s: Text, from: nat): (p: Parts)
    requires from <= |s|
    ensures |p.literals| == |p.tokens| + 1
    ensures p.tokens == [] <==> NextStart(s, from) == |s|
    decreases |s| - from
  {
    var i := NextStart(s, from);
    if i == |s| then Parts([s[from..]], [])
    else
      var t := TokenAt(s, i).value;
      var rest := PartsFrom(s, i + |TokenText(t)|);
      Parts([s[from..i]] + rest.literals, [t] + rest.tokens)
  }

  function Names(tokens: seq<Token>): (names: seq<Text>)
    ensures |names| == |tokens|
    ensures forall i :: 0 <= i < |tokens| ==> names[i] == tokens[i].name
  {
    if tokens == [] then [] else [tokens[0].name] + Names(tokens[1..])
  }

  function TokenTexts(tokens: seq<Token>): (texts: seq<Text>)
    ensures |texts| == |tokens|
    ensures forall i :: 0 <= i < |tokens| ==> texts[i] == TokenText(tokens[i])
  {
    if tokens == [] then [] else [TokenText(tokens[0])] + TokenTexts(tokens[1..])
  }

  /** The tokens are the ones found from left to right, each the first after the previous. */
  ghost predicate InOrder(s: Text, from: nat, tokens: seq<Token>)
    decreases |tokens|
  {
    && from <= |s|
    && var i := NextStart(s, from);
       if tokens == [] then i == |s|
       else i < |s| && TokenAt(s, i) == Some(tokens[0]) && InOrder(s, i + |TokenText(tokens[0])|, tokens[1..])
  }

  /** The parts are the whole text: literals and tokens in turn give it back. */
  lemma {:induction false} PartsWeave(s: Text, from: nat)
    requires from <= |s|
    ensures var p := PartsFrom(s, from);
            && InOrder(s, from, p.tokens)
            && (forall t :: t in p.tokens ==> Formed(t))
            && Weave(p.literals, TokenTexts(p.tokens)) == s[from..]
    decreases |s| - from
  {
    hide TokenText, Formed, NextStart, TokenAt, TokenTexts, Weave;
    var i := NextStart(s, from);
    if i < |s| {
      var t := TokenAt(s, i).value;
      TokenLength(s, i, t);
      var end := i + |TokenText(t)|;
      var rest := PartsFrom(s, end);
      PartsWeave(s, end);
      TokenTextsCons(t, rest.tokens);
      WeaveCons(s[from..i], TokenText(t), rest.literals, TokenTexts(rest.tokens));
      assert s[from..] == s[from..i] + (s[i..end] + s[end..]);
      assert ([t] + rest.tokens)[1..] == rest.tokens;
    } else {
      WeaveOne(s[from..]);
    }
  }

  lemma TokenTextsCons(t: Token, tokens: seq<Token>)
    ensures TokenTexts([t] + tokens) == [TokenText(t)] + TokenTexts(tokens)
  {
    assert ([t] + tokens)[1..] == tokens;
  }

  lemma WeaveCons(literal: Text, capture: Text, literals: seq<Text>, captures: seq<Text>)
    requires |literals| == |captures| + 1
    ensures Weave([literal] + literals, [capture] + captures) == literal + (capture + Weave(literals, captures))
  {
    assert ([literal] + literals)[1..] == literals && ([capture] + captures)[1..] == captures;
  }

  lemma WeaveOne(literal: Text)
    ensures TokenTexts([]) == [] && Weave([literal], TokenTexts([])) == literal
  {
  }

  lemma TokenLength(s: Text, i: nat, t: Token)
    requires Stands(s, i, t)
    ensures |TokenText(t)| > 0 && i + |TokenText(t)| <= |s| && s[i..i + |TokenText(t)|] == TokenText(t) && Formed(t)
  {
  }

  // ---------------------------------------------------------------- templates

  /** The first of the longest literals. */
  function Longest(literals: seq<Text>): (r: Text)
    requires literals != []
    ensures r in literals && forall l :: l in literals ==> |l| <= |r|
  {
    var last := literals[|literals| - 1];
    if |literals| == 1 then last
    else
      var r := Longest(literals[..|literals| - 1]);
      assert forall l :: l in literals ==> l in literals[..|literals| - 1] || l == last;
      if |last| > |r| then last else r
  }

  function TrimStart(s: Text): Text {
    if s != [] && Space(s[0]) then TrimStart(s[1..]) else s
  }

  function TrimEnd(s: Text): Text {
    if s != [] && Space(s[|s| - 1]) then TrimEnd(s[..|s| - 1]) else s
  }

  function Trim(s: Text): Text { TrimEnd(TrimStart(s)) }

  /** How long a literal is in the source of an expression: special characters and the slash
      are escaped, and so are line terminators. */
  function EscapedLength(s: Text): nat {
    if s == [] then 0
    else
      var u := s[0];
      (if u in {0x2E, 0x2A, 0x2B, 0x3F, 0x5E, 0x24, 0x7B, 0x7D, 0x28, 0x29, 0x7C, 0x5B, 0x5D, 0x5C, 0x2F, 0x0A, 0x0D}
          then 2
       else if u == 0x2028 || u == 0x2029 then 6 else 1)
      + EscapedLength(s[1..])
  }

  function SourceLength(literals: seq<Text>): nat {
    if literals == [] then 0 else EscapedLength(literals[0]) + 5 + SourceLength(literals[1..])
  }

  datatype Template = Template(
    key: string,
    names: seq<Text>,
    literals: seq<Text>,
    literalLength: nat,
    anchor: Text,
    minLength: nat,
    sourceLength: nat)

  /** `compileTermaI18nPhraseTemplate`. */
  function Compile(value: Text, key: string): Option<Template> {
    var source := Trim(value);
    var parts := PartsFrom(source, 0);
    Assemble(parts.literals, Names(parts.tokens), key)
  }

  function Assemble(literals: seq<Text>, names: seq<Text>, key: string): Option<Template>
    requires literals != []
  {
    if names == [] || Total(literals) < 2 then None
    else Some(Template(key, names, literals, Total(literals), Longest(literals), Total(literals) + |names|,
        SourceLength(literals)))
  }

  /** What the index relies on. */
  ghost predicate Regular(t: Template) {
    && |t.literals| == |t.names| + 1 && t.names != []
    && t.anchor in t.literals
    && t.minLength == Total(t.literals) + |t.names|
  }

  /** A template comes from all tokens of its text, and its literals with the tokens between
      them are the text. */
  lemma CompiledFromText(value: Text, key: string)
    ensures var source := Trim(value);
            match Compile(value, key)
            case None => NextStart(source, 0) == |source| || Total(PartsFrom(source, 0).literals) < 2
            case Some(t) =>
              && Regular(t) && t.key == key && t.literalLength == Total(t.literals) >= 2
              && exists tokens :: WrittenWith(t, tokens, source)
  {
    var source := Trim(value);
    var parts := PartsFrom(source, 0);
    PartsWeave(source, 0);
    assert source[0..] == source;
    if Compile(value, key).Some? { assert WrittenWith(Compile(value, key).value, parts.tokens, source); }
  }

  ghost predicate WrittenWith(t: Template, tokens: seq<Token>, source: Text) {
    && InOrder(source, 0, tokens) && (forall token :: token in tokens ==> Formed(token))
    && t.names == Names(tokens)
    && |t.literals| == |tokens| + 1 && Weave(t.literals, TokenTexts(tokens)) == source
  }

  /** Splitting the text at its tokens. */
  method LiteralsAndNames(source: Text) returns (literals: seq<Text>, names: seq<Text>)
    ensures literals == PartsFrom(source, 0).literals && names == Names(PartsFrom(source, 0).tokens)
  {
    hide TokenText, NextStart, TokenAt, Names, PartsFrom;
    literals, names := [], [];
    var offset := 0;
    var start := NextStart(source, 0);
    while start < |source|
      invariant offset <= |source| && start == NextStart(source, offset)
      invariant PartsFrom(source, 0).literals == literals + PartsFrom(source, offset).literals
      invariant Names(PartsFrom(source, 0).tokens) == names + Names(PartsFrom(source, offset).tokens)
      decreases |source| - offset
    {
      var token := TokenAt(source, start).value;
      PartsNext(source, offset);
      literals := literals + [source[offset..start]];
      names := names + [token.name];
      offset := start + |TokenText(token)|;
      start := NextStart(source, offset);
    }
    PartsLast(source, offset);
    literals := literals + [source[offset..]];
  }

  lemma PartsNext(s: Text, from: nat)
    requires from <= |s| && NextStart(s, from) < |s|
    ensures var i := NextStart(s, from);
            var t := TokenAt(s, i).value;
            var end := i + |TokenText(t)|;
            && i < end <= |s|
            && PartsFrom(s, from).literals == [s[from..i]] + PartsFrom(s, end).literals
            && Names(PartsFrom(s, from).tokens) == [t.name] + Names(PartsFrom(s, end).tokens)
  {
    hide TokenText, NextStart, TokenAt, Names;
    var i := NextStart(s, from);
    var t := TokenAt(s, i).value;
    TokenLength(s, i, t);
    NamesCons(t, PartsFrom(s, i + |TokenText(t)|).tokens);
  }

  lemma PartsLast(s: Text, from: nat)
    requires from <= |s| && NextStart(s, from) == |s|
    ensures PartsFrom(s, from).literals == [s[from..]] && Names(PartsFrom(s, from).tokens) == []
  {
  }

  lemma NamesCons(token: Token, tokens: seq<Token>)
    ensures Names([token] + tokens) == [token.name] + Names(tokens)
  {
    assert ([token] + tokens)[1..] == tokens;
  }

  /** The compiling loop. */
  method CompileTemplate(value: Text, key: string) returns (template: Option<Template>)
    ensures template == Compile(value, key)
  {
    hide PartsFrom, Longest, Total, SourceLength, Names, Trim;
    var source := Trim(value);
    var literals, names := LiteralsAndNames(source);
    if names == [] { return None; }
    var literalLength, anchor := Measure(literals);
    if literalLength < 2 { return None; }
    template := Some(Template(key, names, literals, literalLength, anchor, literalLength + |names|,
        SourceLength(literals)));
  }

  /** The length of all literals and the first of the longest. */
  method Measure(literals: seq<Text>) returns (length: nat, anchor: Text)
    requires literals != []
    ensures length == Total(literals) && anchor == Longest(literals)
  {
    hide Longest;
    length, anchor := 0, [];
    var n := 0;
    assert literals[0..] == literals;
    while n < |literals|
      invariant n <= |literals|
      invariant length + Total(literals[n..]) == Total(literals)
      invariant if n == 0 then anchor == [] else anchor == Longest(literals[..n])
    {
      LongestNext(literals, n);
      assert literals[n..][1..] == literals[n + 1..];
      length := length + |literals[n]|;
      if |literals[n]| > |anchor| { anchor := literals[n]; }
      n := n + 1;
    }
    assert literals[..n] == literals;
  }

  lemma LongestNext(literals: seq<Text>, n: nat)
    requires n < |literals|
    ensures Longest(literals[..n + 1])
            == if n == 0 || |literals[n]| > |Longest(literals[..n])| then literals[n] else Longest(literals[..n])
  {
    assert literals[..n + 1][..n] == literals[..n];
  }
}
