/**
 XML texts as they stand, whoever wrote them: white space wherever the reader skips it, either
 kind of quotes, attributes with and without values, instructions and comments in front of
 nodes, and end tags in any letter case.  The reader reads exactly those.
 */
module XmlGrammar {
  import opened Wrappers
  import opened Xml

  // ---------------------------------------------------------------------------
  // Words, gaps and quotes
  // ---------------------------------------------------------------------------

  /** Exactly `n` white characters from `p` on. */
  predicate Gap(t: Text, p: nat, n: nat) {
    p + n <= |t| && (forall i :: p <= i < p + n ==> White(t[i])) && !White(At(t, p + n))
  }

  /** A word without stop characters, in front of one or of the end. */
  predicate Word(t: Text, p: nat, s: string, stop: Stop) {
    && p + |s| <= |t| && t[p..p + |s|] == s
    && (forall i :: p <= i < p + |s| ==> !Stops(stop, t[i])) && (p + |s| < |t| ==> Stops(stop, t[p + |s|]))
  }

  lemma {:induction false} GapIs(t: Text, p: nat, n: nat)
    requires p <= |t|
    ensures Gap(t, p, n) <==> SkipWs(t, p) == p + n
    decreases |t| - p
  {
    if p < |t| && White(t[p]) {
      if n > 0 {
        GapIs(t, p + 1, n - 1);
      }
    }
  }

  lemma {:induction false} UntilIs(t: Text, p: nat, q: nat, stop: Stop)
    requires p <= q <= |t|
    ensures Until(t, p, stop) == q <==>
            (forall i :: p <= i < q ==> !Stops(stop, t[i])) && (q < |t| ==> Stops(stop, t[q]))
    decreases |t| - p
  {
    if p < |t| && !Stops(stop, t[p]) && p < q {
      UntilIs(t, p + 1, q, stop);
    }
  }

  lemma {:induction false} WordIs(t: Text, p: nat, s: string, stop: Stop)
    requires p <= |t|
    ensures Word(t, p, s, stop) <==> p + |s| <= |t| && Until(t, p, stop) == p + |s| && Slice(t, p, p + |s|) == s
  {
    if p + |s| <= |t| {
      UntilIs(t, p, p + |s|, stop);
    }
  }

  lemma {:induction false} SliceSize(t: Text, p: nat, q: nat)
    requires p <= q <= |t|
    ensures |Slice(t, p, q)| == q - p
  {
  }

  /** Exactly `n` backslashes end at `i`, the first character of the text not counted. */
  predicate RunOfBackslashes(t: Text, i: int, n: nat)
    requires i < |t|
  {
    && n <= (if i < 0 then 0 else i)
    && (forall j :: i - n < j <= i ==> 0 <= j && t[j] == '\\') && (i - n > 0 ==> t[i - n] != '\\')
  }

  lemma {:induction false} BackslashesAre(t: Text, i: int)
    requires i < |t|
    ensures RunOfBackslashes(t, i, Backslashes(t, i))
    ensures forall n: nat :: RunOfBackslashes(t, i, n) ==> n == Backslashes(t, i)
  {
    if i > 0 && t[i] == '\\' {
      BackslashesAre(t, i - 1);
      forall n: nat | RunOfBackslashes(t, i, n)
        ensures n == Backslashes(t, i)
      {
        if n > 0 {
          assert RunOfBackslashes(t, i - 1, n - 1);
        }
      }
    }
  }

  /** An odd number of backslashes stands in front of the character, unless it is the third of the text. */
  predicate Escaped(t: Text, i: nat)
    requires 1 <= i < |t|
  {
    i != 2 && t[i - 1] == '\\' && Backslashes(t, i - 2) % 2 == 0
  }

  /** The first line end or unescaped quote from `s` on, or the end of the text. */
  predicate FirstUnescaped(t: Text, s: nat, q: char, f: nat) {
    && 1 <= s <= f <= |t|
    && (forall i :: s <= i < f ==> t[i] != '\n' && (t[i] == q ==> Escaped(t, i)))
    && (f < |t| ==> t[f] == '\n' || (t[f] == q && !Escaped(t, f)))
  }

  /** Where a quoted value ends; a quote behind two, four or more backslashes is passed over as well. */
  function ValueEnd(t: Text, q: char, f: nat): nat
    requires 1 <= f <= |t|
  {
    if At(t, f) == q && t[f - 1] == '\\' && f != 2 then f + 1 else f
  }

  lemma {:induction false} QuoteEndIs(t: Text, s: nat, q: char) returns (f: nat)
    requires 1 <= s <= |t| && q != '\0' && q != '\n'
    ensures FirstUnescaped(t, s, q, f) && QuoteEnd(t, s, q) == ValueEnd(t, q, f)
    decreases |t| - s
  {
    hide Backslashes;
    f := Until(t, s, QuoteStop(q));
    UntilIs(t, s, f, QuoteStop(q));
    if f < |t| && t[f] == q && Escaped(t, f) {
      var g := QuoteEndIs(t, f + 1, q);
      f := g;
    }
  }

  lemma {:induction false} FirstIsUnique(t: Text, s: nat, q: char, f: nat, g: nat)
    requires FirstUnescaped(t, s, q, f) && FirstUnescaped(t, s, q, g)
    ensures f == g
  {
  }

  /** A value in quotes of one kind. */
  ghost predicate QuotedStands(t: Text, p: nat, v: string) {
    var e := p + 1 + |v|;
    && e < |t| && (t[p] == '"' || t[p] == '\'') && t[e] == t[p] && t[p + 1..e] == v
    && exists f :: FirstUnescaped(t, p + 1, t[p], f) && ValueEnd(t, t[p], f) == e
  }

  /** A value is read if and only if it stands there, with the white space behind it. */
  lemma {:induction false} QuotedIs(t: Text, p: nat, v: string, gap: nat)
    requires p <= |t|
    ensures Quoted(t, p) == Ok(v, p + 2 + |v| + gap) <==> QuotedStands(t, p, v) && Gap(t, p + 2 + |v|, gap)
  {
    hide QuoteEnd, Backslashes, Escaped, ValueEnd, Gap, SkipWs;
    if p < |t| && (t[p] == '"' || t[p] == '\'') {
      var f := QuoteEndIs(t, p + 1, t[p]);
      var e := QuoteEnd(t, p + 1, t[p]);
      if QuotedStands(t, p, v) {
        var g :| FirstUnescaped(t, p + 1, t[p], g) && ValueEnd(t, t[p], g) == p + 1 + |v|;
        FirstIsUnique(t, p + 1, t[p], f, g);
      }
      if e < |t| {
        GapIs(t, e + 1, gap);
      }
    }
  }

  // ---------------------------------------------------------------------------
  // Attributes
  // ---------------------------------------------------------------------------

  /** An attribute with the gaps behind its name, its equals sign and its value. */
  datatype AttrForm = AttrForm(name: string, gap: nat, value: Option<string>, gap2: nat, gap3: nat)

  function AttrOf(a: AttrForm): Attr { Attr(a.name, if a.value.Some? then a.value.value else "") }

  function AttrSpan(a: AttrForm): nat {
    |a.name| + a.gap + if a.value.Some? then 1 + a.gap2 + 2 + |a.value.value| + a.gap3 else 0
  }

  ghost predicate AttrStands(t: Text, p: nat, a: AttrForm) {
    var p1 := p + |a.name| + a.gap;
    && p < |t| && t[p] != '>' && t[p] != '/' && Word(t, p, a.name, AttrStop) && Gap(t, p + |a.name|, a.gap)
    && (if a.value.None? then At(t, p1) != '='
        else
          && At(t, p1) == '=' && Gap(t, p1 + 1, a.gap2) && QuotedStands(t, p1 + 1 + a.gap2, a.value.value)
          && Gap(t, p1 + 1 + a.gap2 + 2 + |a.value.value|, a.gap3))
  }

  /** The attributes one behind the other, in front of the end of the tag. */
  ghost predicate AttrsStand(t: Text, p: nat, attrs: seq<AttrForm>)
    decreases |attrs|
  {
    if attrs == [] then p < |t| && (t[p] == '>' || t[p] == '/')
    else AttrStands(t, p, attrs[0]) && AttrsStand(t, p + AttrSpan(attrs[0]), attrs[1..])
  }

  function AttrsOf(attrs: seq<AttrForm>): seq<Attr> {
    if attrs == [] then [] else [AttrOf(attrs[0])] + AttrsOf(attrs[1..])
  }

  function AttrsSpan(attrs: seq<AttrForm>): nat {
    if attrs == [] then 0 else AttrSpan(attrs[0]) + AttrsSpan(attrs[1..])
  }

  lemma {:induction false} AttrProgress(t: Text, p: nat, a: AttrForm)
    requires AttrStands(t, p, a)
    ensures 0 < AttrSpan(a) && p + AttrSpan(a) <= |t|
  {
    hide QuotedStands;
    if a.name == "" && a.gap == 0 {
      assert t[p] == '=';
    }
    assert a.value.Some? ==> Gap(t, p + AttrSpan(a) - a.gap3, a.gap3);
  }

  lemma {:induction false} AttrsAreRead(t: Text, p: nat, attrs: seq<AttrForm>)
    requires p <= |t| && AttrsStand(t, p, attrs)
    ensures ParseAttrs(t, p) == Ok(AttrsOf(attrs), p + AttrsSpan(attrs))
    decreases |attrs|
  {
    hide Gap, Word, QuotedStands, Quoted, SkipWs, Until, Slice, AttrStands;
    if attrs != [] {
      AttrProgress(t, p, attrs[0]);
      AttrsAreRead(t, p + AttrSpan(attrs[0]), attrs[1..]);
      AttrIsRead(t, p, attrs[0]);
    }
  }

  /** One round of the reader's loop over attributes. */
  lemma {:induction false} AttrStep(t: Text, p: nat)
    requires p < |t| && t[p] != '>' && t[p] != '/'
    ensures var q := Until(t, p, AttrStop);
            var p1 := SkipWs(t, q);
            var name := Slice(t, p, q);
            ParseAttrs(t, p)
            == if At(t, p1) == '=' then
                 var v := Quoted(t, SkipWs(t, p1 + 1));
                 if v.SyntaxError? then SyntaxError else More(Attr(name, v.value), ParseAttrs(t, v.pos))
               else More(Attr(name, ""), ParseAttrs(t, p1))
  {
    hide Until, SkipWs, Slice, Quoted, More;
  }

  /** The reader goes over one attribute. */
  lemma {:induction false} AttrIsRead(t: Text, p: nat, a: AttrForm)
    requires AttrStands(t, p, a)
    ensures p + AttrSpan(a) <= |t| && ParseAttrs(t, p) == More(AttrOf(a), ParseAttrs(t, p + AttrSpan(a)))
  {
    hide Gap, Word, QuotedStands, Quoted, SkipWs, Until, Slice, ParseAttrs, More;
    AttrStep(t, p);
    AttrProgress(t, p, a);
    WordIs(t, p, a.name, AttrStop);
    var q := p + |a.name|;
    GapIs(t, q, a.gap);
    if a.value.Some? {
      GapIs(t, q + a.gap + 1, a.gap2);
      QuotedIs(t, q + a.gap + 1 + a.gap2, a.value.value, a.gap3);
    }
  }

  lemma {:induction false} AttrsFound(t: Text, p: nat) returns (attrs: seq<AttrForm>)
    requires p <= |t| && ParseAttrs(t, p).Ok?
    ensures AttrsStand(t, p, attrs)
    decreases |t| - p
  {
    hide Gap, Word, QuotedStands, Quoted, SkipWs, Until, Slice;
    if At(t, p) == '>' || At(t, p) == '/' {
      return [];
    }
    var a := AttrFound(t, p);
    AttrIsRead(t, p, a);
    AttrProgress(t, p, a);
    var rest := AttrsFound(t, p + AttrSpan(a));
    attrs := [a] + rest;
    assert attrs[1..] == rest;
  }

  lemma {:induction false} AttrFound(t: Text, p: nat) returns (a: AttrForm)
    requires p < |t| && t[p] != '>' && t[p] != '/' && ParseAttrs(t, p).Ok?
    ensures AttrStands(t, p, a)
  {
    hide Gap, Word, QuotedStands, Quoted, SkipWs, Until, Slice, ParseAttrs;
    AttrStep(t, p);
    var q := Until(t, p, AttrStop);
    var p1 := SkipWs(t, q);
    var name := Slice(t, p, q);
    SliceSize(t, p, q);
    WordIs(t, p, name, AttrStop);
    GapIs(t, q, p1 - q);
    a := AttrForm(name, p1 - q, None, 0, 0);
    if At(t, p1) == '=' {
      var p2 := SkipWs(t, p1 + 1);
      GapIs(t, p1 + 1, p2 - (p1 + 1));
      var v := Quoted(t, p2);
      QuotedSize(t, p2);
      var gap := v.pos - (p2 + 2 + |v.value|);
      QuotedIs(t, p2, v.value, gap);
      a := AttrForm(name, p1 - q, Some(v.value), p2 - (p1 + 1), gap);
    }
  }

  lemma {:induction false} QuotedSize(t: Text, p: nat)
    requires p <= |t| && Quoted(t, p).Ok?
    ensures Quoted(t, p).pos >= p + 2 + |Quoted(t, p).value|
  {
    hide QuoteEnd, SkipWs;
  }

  // ---------------------------------------------------------------------------
  // Nodes
  // ---------------------------------------------------------------------------

  /** An instruction, up to the first `?>`, or a comment, up to the first `>`. */
  datatype Skip = Skip(instruction: bool, size: nat, gap: nat)

  /** A node with all its gaps and what stands in front of it; an empty one, or one with an end tag. */
  datatype NodeForm = NodeForm(skips: seq<Skip>, gap: nat, name: string, gap2: nat, attrs: seq<AttrForm>,
                               body: BodyForm)

  datatype BodyForm =
    | Empty(gap: nat, gap2: nat)
    | Full(gap: nat, children: seq<NodeForm>, content: string, end: EndForm)

  datatype EndForm = EndForm(gap: nat, gap2: nat, name: string, gap3: nat, gap4: nat)

  function NodeOf(d: NodeForm): Node
    decreases d, 0
  {
    match d.body
    case Empty(_, _) => Node(d.name, AttrsOf(d.attrs), [], "")
    case Full(_, children, content, _) => Node(d.name, AttrsOf(d.attrs), NodesOf(children), content)
  }

  function NodesOf(ds: seq<NodeForm>): seq<Node>
    decreases ds, 1
  {
    if ds == [] then [] else [NodeOf(ds[0])] + NodesOf(ds[1..])
  }

  function SkipSpan(s: Skip): nat { 2 + s.size + (if s.instruction then 2 else 1) + s.gap }

  function SkipsSpan(skips: seq<Skip>): nat {
    if skips == [] then 0 else SkipSpan(skips[0]) + SkipsSpan(skips[1..])
  }

  function EndSpan(e: EndForm): nat { 1 + e.gap + 1 + e.gap2 + |e.name| + e.gap3 + 1 + e.gap4 }

  function NodeSpan(d: NodeForm): nat
    decreases d, 1
  {
    SkipsSpan(d.skips) + ElementSpan(d)
  }

  function ElementSpan(d: NodeForm): nat
    decreases d, 0
  {
    1 + d.gap + |d.name| + d.gap2 + AttrsSpan(d.attrs) + BodySpan(d.body)
  }

  function BodySpan(b: BodyForm): nat
    decreases b, 0
  {
    match b
    case Empty(gap, gap2) => 1 + gap + 1 + gap2
    case Full(gap, children, content, end) => 1 + gap + NodesSpan(children) + |content| + EndSpan(end)
  }

  function NodesSpan(ds: seq<NodeForm>): nat
    decreases ds, 2
  {
    if ds == [] then 0 else NodeSpan(ds[0]) + NodesSpan(ds[1..])
  }

  predicate SkipStands(t: Text, p: nat, s: Skip) {
    var e := p + 2 + s.size;
    && At(t, p) == '<' && At(t, p + 1) == (if s.instruction then '?' else '!') && e < |t|
    && (if s.instruction then
          && t[e] == '?' && At(t, e + 1) == '>' && Gap(t, e + 2, s.gap)
          && (forall i :: p + 2 <= i < e ==> t[i] != '?' || t[i + 1] != '>')
        else t[e] == '>' && Gap(t, e + 1, s.gap) && forall i :: p + 2 <= i < e ==> t[i] != '>')
  }

  predicate SkipsStand(t: Text, p: nat, skips: seq<Skip>)
    decreases |skips|
  {
    skips == [] || (SkipStands(t, p, skips[0]) && SkipsStand(t, p + SkipSpan(skips[0]), skips[1..]))
  }

  /** The node stands at `p`. */
  ghost predicate NodeStands(t: Text, p: nat, d: NodeForm)
    decreases d, 1
  {
    SkipsStand(t, p, d.skips) && ElementStands(t, p + SkipsSpan(d.skips), d)
  }

  ghost predicate ElementStands(t: Text, p: nat, d: NodeForm)
    decreases d, 0
  {
    var p1 := p + 1 + d.gap;
    && At(t, p) == '<' && p + 1 < |t| && t[p + 1] != '?' && t[p + 1] != '!'
    && Gap(t, p + 1, d.gap) && p1 < |t| && Word(t, p1, d.name, NameStop) && Gap(t, p1 + |d.name|, d.gap2)
    && AttrsStand(t, p1 + |d.name| + d.gap2, d.attrs)
    && BodyStands(t, p1 + |d.name| + d.gap2 + AttrsSpan(d.attrs), d.name, d.body)
  }

  ghost predicate BodyStands(t: Text, p: nat, name: string, b: BodyForm)
    decreases b, 0
  {
    match b
    case Empty(gap, gap2) =>
      At(t, p) == '/' && Gap(t, p + 1, gap) && At(t, p + 1 + gap) == '>' && Gap(t, p + 1 + gap + 1, gap2)
    case Full(gap, children, content, end) =>
      var p1 := p + 1 + gap + NodesSpan(children);
      && At(t, p) == '>' && Gap(t, p + 1, gap) && NodesStand(t, p + 1 + gap, children)
      && Word(t, p1, content, Only('<')) && EndStands(t, p1 + |content|, name, end)
  }

  /** The nodes one behind the other, in front of a content or an end tag. */
  ghost predicate NodesStand(t: Text, p: nat, ds: seq<NodeForm>)
    decreases ds, 2
  {
    if ds == [] then !(At(t, p) == '<' && At(t, p + 1) != '/')
    else
      && At(t, p) == '<' && At(t, p + 1) != '/'
      && NodeStands(t, p, ds[0]) && NodesStand(t, p + NodeSpan(ds[0]), ds[1..])
  }

  predicate EndStands(t: Text, p: nat, name: string, e: EndForm) {
    var p1 := p + 1 + e.gap;
    var p2 := p1 + 1 + e.gap2;
    && At(t, p) == '<' && Gap(t, p + 1, e.gap) && At(t, p1) == '/' && Gap(t, p1 + 1, e.gap2)
    && p2 < |t| && Word(t, p2, e.name, EndStop) && SameName(name, e.name)
    && Gap(t, p2 + |e.name|, e.gap3) && At(t, p2 + |e.name| + e.gap3) == '>'
    && Gap(t, p2 + |e.name| + e.gap3 + 1, e.gap4)
  }

  // ---------------------------------------------------------------------------
  // What stands there is read
  // ---------------------------------------------------------------------------

  lemma {:induction false} InstructionIsRead(t: Text, p: nat, e: nat)
    requires p <= e < |t| && t[e] == '?' && At(t, e + 1) == '>'
    requires forall i :: p <= i < e ==> t[i] != '?' || t[i + 1] != '>'
    ensures e + 2 <= |t| && SkipInstruction(t, p) == Ok((), SkipWs(t, e + 2))
    decreases e - p
  {
    hide SkipWs;
    var q := Until(t, p, Only('?'));
    UntilIs(t, p, q, Only('?'));
    if q < e {
      InstructionIsRead(t, q + 1, e);
    }
  }

  lemma {:induction false} SkipIsRead(t: Text, p: nat, s: Skip)
    requires p <= |t| && SkipStands(t, p, s)
    ensures p + SkipSpan(s) <= |t| && ParseNode(t, p) == ParseNode(t, p + SkipSpan(s))
  {
    hide SkipWs, Gap, ParseElement, SkipInstruction;
    var e := p + 2 + s.size;
    if s.instruction {
      InstructionIsRead(t, p + 2, e);
      GapIs(t, e + 2, s.gap);
    } else {
      UntilIs(t, p + 2, e, Only('>'));
      GapIs(t, e + 1, s.gap);
    }
  }

  lemma {:induction false} SkipsAreRead(t: Text, p: nat, skips: seq<Skip>)
    requires p <= |t| && SkipsStand(t, p, skips)
    ensures p + SkipsSpan(skips) <= |t| && ParseNode(t, p) == ParseNode(t, p + SkipsSpan(skips))
    decreases |skips|
  {
    hide ParseNode, SkipStands, SkipSpan;
    if skips != [] {
      SkipIsRead(t, p, skips[0]);
      SkipsAreRead(t, p + SkipSpan(skips[0]), skips[1..]);
    }
  }

  lemma {:induction false} EndIsRead(t: Text, p: nat, name: string, e: EndForm)
    requires p <= |t| && EndStands(t, p, name, e)
    ensures ParseEnd(t, p, name) == Ok((), p + EndSpan(e))
  {
    hide SkipWs, Gap, Word, Until, SameName;
    var p1 := p + 1 + e.gap;
    var p2 := p1 + 1 + e.gap2;
    GapIs(t, p + 1, e.gap);
    GapIs(t, p1 + 1, e.gap2);
    WordIs(t, p2, e.name, EndStop);
    GapIs(t, p2 + |e.name|, e.gap3);
    GapIs(t, p2 + |e.name| + e.gap3 + 1, e.gap4);
  }

  /** The rest of an element behind its attributes: what the reader makes of it. */
  function ParseBody(t: Text, p: nat, name: string, attrs: seq<Attr>): Result<Node>
    requires p < |t|
  {
    if t[p] == '/' then
      var p1 := SkipWs(t, p + 1);
      if At(t, p1) != '>' then SyntaxError else Ok(Node(name, attrs, [], ""), SkipWs(t, p1 + 1))
    else
      var children := ParseChildren(t, SkipWs(t, p + 1));
      if children.SyntaxError? then SyntaxError
      else
        var end := Until(t, children.pos, Only('<'));
        var r := ParseEnd(t, end, name);
        if r.SyntaxError? then SyntaxError
        else Ok(Node(name, attrs, children.value, Slice(t, children.pos, end)), r.pos)
  }

  lemma {:induction false} ElementStep(t: Text, p: nat, q: nat, gap: nat)
    requires p < |t| && Until(t, p, NameStop) == q && SkipWs(t, q) == q + gap
    ensures var a := ParseAttrs(t, q + gap);
            ParseElement(t, p) == if a.SyntaxError? then SyntaxError else ParseBody(t, a.pos, Slice(t, p, q), a.value)
  {
    hide Until, SkipWs, ParseAttrs, ParseChildren, ParseEnd, Slice;
  }

  lemma {:induction false} ElementIsRead(t: Text, p: nat, d: NodeForm)
    requires p <= |t| && ElementStands(t, p, d)
    ensures ParseNode(t, p) == Ok(NodeOf(d), p + ElementSpan(d))
    decreases d, 3
  {
    hide SkipWs, Gap, Word, Until, Slice, ParseAttrs, ParseElement, ParseBody, AttrsStand, BodyStands, AttrsOf, AttrsSpan;
    var p1 := p + 1 + d.gap;
    GapIs(t, p + 1, d.gap);
    WordIs(t, p1, d.name, NameStop);
    GapIs(t, p1 + |d.name|, d.gap2);
    AttrsAreRead(t, p1 + |d.name| + d.gap2, d.attrs);
    ElementStep(t, p1, p1 + |d.name|, d.gap2);
    BodyIsRead(t, p1 + |d.name| + d.gap2 + AttrsSpan(d.attrs), d);
  }

  lemma {:induction false} BodyIsRead(t: Text, p: nat, d: NodeForm)
    requires p < |t| && BodyStands(t, p, d.name, d.body)
    ensures ParseBody(t, p, d.name, AttrsOf(d.attrs)) == Ok(NodeOf(d), p + BodySpan(d.body))
    decreases d, 2
  {
    hide SkipWs, Gap, Word, Until, ParseChildren, ParseEnd, NodesStand, EndStands, EndSpan, AttrsOf;
    match d.body {
      case Empty(gap, gap2) =>
        GapIs(t, p + 1, gap);
        GapIs(t, p + 1 + gap + 1, gap2);
      case Full(gap, children, content, end) =>
        var p1 := p + 1 + gap + NodesSpan(children);
        GapIs(t, p + 1, gap);
        GapFits(t, p + 1, gap);
        NodesAreRead(t, p + 1 + gap, children);
        WordIs(t, p1, content, Only('<'));
        EndIsRead(t, p1 + |content|, d.name, end);
    }
  }

  lemma {:induction false} GapFits(t: Text, p: nat, n: nat)
    requires Gap(t, p, n)
    ensures p + n <= |t|
  {
  }

  lemma {:induction false} NodesAreRead(t: Text, p: nat, ds: seq<NodeForm>)
    requires p <= |t| && NodesStand(t, p, ds)
    ensures ParseChildren(t, p) == Ok(NodesOf(ds), p + NodesSpan(ds))
    decreases ds, 5
  {
    hide ParseNode, NodeStands, NodeOf, NodeSpan;
    if ds != [] {
      NodeIsRead(t, p, ds[0]);
      NodesAreRead(t, p + NodeSpan(ds[0]), ds[1..]);
    }
  }

  lemma {:induction false} NodeIsRead(t: Text, p: nat, d: NodeForm)
    requires p <= |t| && NodeStands(t, p, d)
    ensures p + NodeSpan(d) <= |t| && ParseNode(t, p) == Ok(NodeOf(d), p + NodeSpan(d))
    decreases d, 4
  {
    hide ParseNode, SkipsStand, SkipsSpan, ElementStands, ElementSpan, NodeOf;
    SkipsAreRead(t, p, d.skips);
    ElementIsRead(t, p + SkipsSpan(d.skips), d);
  }

  // ---------------------------------------------------------------------------
  // What is read stands there
  // ---------------------------------------------------------------------------

  lemma {:induction false} InstructionFound(t: Text, p: nat) returns (e: nat)
    requires p <= |t| && SkipInstruction(t, p).Ok?
    ensures p <= e && e + 2 <= |t| && t[e] == '?' && t[e + 1] == '>'
    ensures forall i :: p <= i < e ==> t[i] != '?' || t[i + 1] != '>'
    decreases |t| - p
  {
    hide SkipWs;
    e := Until(t, p, Only('?'));
    UntilIs(t, p, e, Only('?'));
    if At(t, e + 1) != '>' {
      var q := e;
      e := InstructionFound(t, q + 1);
    }
  }

  lemma {:induction false} SkipStep(t: Text, p: nat)
    requires p <= |t| && ParseNode(t, p).Ok? && (At(t, p + 1) == '?' || At(t, p + 1) == '!')
    ensures p + 1 < |t| && t[p] == '<'
    ensures if t[p + 1] == '?' then SkipInstruction(t, p + 2).Ok? else SkipComment(t, p + 2).Ok?
  {
    hide SkipWs, ParseElement, SkipInstruction, SkipComment;
  }

  lemma {:induction false} SkipFound(t: Text, p: nat) returns (s: Skip)
    requires p <= |t| && ParseNode(t, p).Ok? && (At(t, p + 1) == '?' || At(t, p + 1) == '!')
    ensures SkipStands(t, p, s)
  {
    hide SkipWs, ParseNode, SkipInstruction;
    SkipStep(t, p);
    if t[p + 1] == '?' {
      var e := InstructionFound(t, p + 2);
      var gap := SkipWs(t, e + 2) - (e + 2);
      GapIs(t, e + 2, gap);
      s := Skip(true, e - (p + 2), gap);
    } else {
      var e := Until(t, p + 2, Only('>'));
      UntilIs(t, p + 2, e, Only('>'));
      var gap := SkipWs(t, e + 1) - (e + 1);
      GapIs(t, e + 1, gap);
      s := Skip(false, e - (p + 2), gap);
    }
  }

  lemma {:induction false} EndFound(t: Text, p: nat, name: string) returns (e: EndForm)
    requires p <= |t| && ParseEnd(t, p, name).Ok?
    ensures EndStands(t, p, name, e)
  {
    hide SkipWs, Gap, Word, Until, SameName;
    var p1 := SkipWs(t, p + 1);
    var p2 := SkipWs(t, p1 + 1);
    var q := Until(t, p2, EndStop);
    var p3 := SkipWs(t, q);
    var p4 := SkipWs(t, p3 + 1);
    GapIs(t, p + 1, p1 - (p + 1));
    GapIs(t, p1 + 1, p2 - (p1 + 1));
    WordIs(t, p2, Slice(t, p2, q), EndStop);
    GapIs(t, q, p3 - q);
    GapIs(t, p3 + 1, p4 - (p3 + 1));
    e := EndForm(p1 - (p + 1), p2 - (p1 + 1), Slice(t, p2, q), p3 - q, p4 - (p3 + 1));
  }

  lemma {:induction false} BodyFound(t: Text, p: nat, name: string, attrs: seq<Attr>) returns (b: BodyForm)
    requires p < |t| && (t[p] == '/' || t[p] == '>') && ParseBody(t, p, name, attrs).Ok?
    ensures BodyStands(t, p, name, b)
    decreases |t| - p, 1
  {
    hide Gap, Word, NodesStand, EndStands, ParseChildren, ParseEnd, SkipWs, Until, Slice;
    var p1 := SkipWs(t, p + 1);
    GapIs(t, p + 1, p1 - (p + 1));
    if t[p] == '/' {
      var p2 := SkipWs(t, p1 + 1);
      GapIs(t, p1 + 1, p2 - (p1 + 1));
      b := Empty(p1 - (p + 1), p2 - (p1 + 1));
    } else {
      var children := NodesFound(t, p1);
      NodesAreRead(t, p1, children);
      var c := ParseChildren(t, p1).pos;
      var e := Until(t, c, Only('<'));
      SliceSize(t, c, e);
      WordIs(t, c, Slice(t, c, e), Only('<'));
      var end := EndFound(t, e, name);
      b := Full(p1 - (p + 1), children, Slice(t, c, e), end);
    }
  }

  lemma {:induction false} NodesFound(t: Text, p: nat) returns (ds: seq<NodeForm>)
    requires p <= |t| && ParseChildren(t, p).Ok?
    ensures NodesStand(t, p, ds)
    decreases |t| - p, 3
  {
    hide ParseNode, NodeStands, NodeSpan;
    ds := [];
    if At(t, p) == '<' && At(t, p + 1) != '/' {
      var d := NodeFound(t, p);
      NodeIsRead(t, p, d);
      var rest := NodesFound(t, p + NodeSpan(d));
      ds := [d] + rest;
      assert ds[1..] == rest;
    }
  }

  lemma {:induction false} NodeFound(t: Text, p: nat) returns (d: NodeForm)
    requires p <= |t| && ParseNode(t, p).Ok?
    ensures NodeStands(t, p, d)
    decreases |t| - p, 2
  {
    hide SkipWs, Gap, Word, Until, Slice, AttrsStand, BodyStands, ParseElement, SkipStands, ElementStands;
    if At(t, p + 1) == '?' || At(t, p + 1) == '!' {
      var s := SkipFound(t, p);
      SkipIsRead(t, p, s);
      d := NodeFound(t, p + SkipSpan(s));
      MoreSkips(t, p, s, d);
      d := d.(skips := [s] + d.skips);
    } else {
      d := ElementFound(t, p);
      NoSkips(t, p, d);
    }
  }

  lemma {:induction false} NoSkips(t: Text, p: nat, d: NodeForm)
    requires d.skips == [] && ElementStands(t, p, d)
    ensures NodeStands(t, p, d)
  {
  }

  lemma {:induction false} MoreSkips(t: Text, p: nat, s: Skip, d: NodeForm)
    requires SkipStands(t, p, s) && NodeStands(t, p + SkipSpan(s), d)
    ensures NodeStands(t, p, d.(skips := [s] + d.skips))
  {
    hide SkipStands, SkipSpan, AttrsStand, BodyStands;
    var skips := [s] + d.skips;
    assert skips[1..] == d.skips;
    SameElement(t, p + SkipSpan(s) + SkipsSpan(d.skips), d, skips);
  }

  lemma {:induction false} SameElement(t: Text, p: nat, d: NodeForm, skips: seq<Skip>)
    requires ElementStands(t, p, d)
    ensures ElementStands(t, p, d.(skips := skips))
  {
    hide Gap, Word, AttrsStand, AttrsSpan, BodyStands;
  }

  lemma {:induction false} NodeStep(t: Text, p: nat)
    requires p <= |t| && ParseNode(t, p).Ok? && At(t, p + 1) != '?' && At(t, p + 1) != '!'
    ensures p + 1 < |t| && t[p] == '<' && ParseNode(t, p) == ParseElement(t, SkipWs(t, p + 1))
    ensures SkipWs(t, p + 1) < |t|
  {
    hide SkipWs, Until, ParseAttrs, ParseChildren, ParseEnd;
  }

  lemma {:induction false} ElementFound(t: Text, p: nat) returns (d: NodeForm)
    requires p <= |t| && ParseNode(t, p).Ok? && At(t, p + 1) != '?' && At(t, p + 1) != '!'
    ensures ElementStands(t, p, d) && d.skips == []
    decreases |t| - p, 1
  {
    hide SkipWs, Gap, Word, Until, AttrsStand, BodyStands, ParseBody, ParseAttrs, ParseNode, ParseElement, Slice;
    NodeStep(t, p);
    var p1 := SkipWs(t, p + 1);
    var q := Until(t, p1, NameStop);
    var p2 := SkipWs(t, q);
    GapIs(t, p + 1, p1 - (p + 1));
    SliceSize(t, p1, q);
    WordIs(t, p1, Slice(t, p1, q), NameStop);
    GapIs(t, q, p2 - q);
    ElementStep(t, p1, q, p2 - q);
    var attrs := AttrsFound(t, p2);
    AttrsAreRead(t, p2, attrs);
    var body := BodyFound(t, p2 + AttrsSpan(attrs), Slice(t, p1, q), AttrsOf(attrs));
    d := NodeForm([], p1 - (p + 1), Slice(t, p1, q), p2 - q, attrs, body);
  }

  /** For every text: a node is read if and only if it stands there in some form, and then as that form says. */
  lemma {:induction false} ReadsWhatStands(t: Text, p: nat, n: Node, q: nat)
    requires p <= |t|
    ensures ParseNode(t, p) == Ok(n, q) <==> exists d :: NodeStands(t, p, d) && NodeOf(d) == n && p + NodeSpan(d) == q
  {
    hide *;
    if ParseNode(t, p) == Ok(n, q) {
      var d := NodeFound(t, p);
      NodeIsRead(t, p, d);
    }
    if d :| NodeStands(t, p, d) && NodeOf(d) == n && p + NodeSpan(d) == q {
      NodeIsRead(t, p, d);
    }
  }

  /** The same for whole texts: white space, a node, and anything behind it. */
  lemma {:induction false} TextIsRead(t: Text, n: Node, q: nat)
    ensures Parse(t) == Ok(n, q) <==>
            exists gap: nat, d :: Gap(t, 0, gap) && NodeStands(t, gap, d) && NodeOf(d) == n && gap + NodeSpan(d) == q
  {
    hide Gap, SkipWs, ParseNode, NodeStands, NodeOf, NodeSpan;
    var start := SkipWs(t, 0);
    GapIs(t, 0, start);
    ReadsWhatStands(t, start, n, q);
    if gap: nat, d :| Gap(t, 0, gap) && NodeStands(t, gap, d) && NodeOf(d) == n && gap + NodeSpan(d) == q {
      GapIs(t, 0, gap);
      NothingStands(t, gap, d);
    }
  }

  lemma {:induction false} NothingStands(t: Text, p: nat, d: NodeForm)
    requires NodeStands(t, p, d)
    ensures t != ""
  {
    hide Gap, Word, AttrsStand, BodyStands;
  }

  const SAMPLE: Text := "<?x?><!y><a b='c'\td><e/>z</A >"

  lemma {:induction false} SampleInstruction()
    ensures SkipStands(SAMPLE, 0, Skip(true, 1, 0))
  {
    assert SAMPLE[2] == 'x' && SAMPLE[3] == '?' && SAMPLE[4] == '>' && SAMPLE[5] == '<';
  }

  lemma {:induction false} SampleComment()
    ensures SkipStands(SAMPLE, 5, Skip(false, 1, 0))
  {
    assert SAMPLE[7] == 'y' && SAMPLE[8] == '>' && SAMPLE[9] == '<';
  }

  lemma {:induction false} SampleSkips()
    ensures SkipsStand(SAMPLE, 0, [Skip(true, 1, 0), Skip(false, 1, 0)])
  {
    hide SkipStands;
    var skips := [Skip(true, 1, 0), Skip(false, 1, 0)];
    SampleInstruction();
    SampleComment();
    assert skips[1..] == [skips[1]] && skips[1..][1..] == [];
    assert SkipsStand(SAMPLE, 5, skips[1..]);
  }

  lemma {:induction false} SampleQuotes()
    ensures QuotedStands(SAMPLE, 14, "c")
  {
    assert SAMPLE[15..16] == "c" && SAMPLE[14] == '\'';
    assert FirstUnescaped(SAMPLE, 15, '\'', 16) && ValueEnd(SAMPLE, '\'', 16) == 16;
  }

  lemma {:induction false} SampleAttr()
    ensures AttrStands(SAMPLE, 12, AttrForm("b", 0, Some("c"), 0, 1))
  {
    hide QuotedStands;
    SampleQuotes();
    assert SAMPLE[12..13] == "b";
    assert Word(SAMPLE, 12, "b", AttrStop) && Gap(SAMPLE, 13, 0) && Gap(SAMPLE, 14, 0) && Gap(SAMPLE, 17, 1);
  }

  lemma {:induction false} SampleFlag()
    ensures AttrStands(SAMPLE, 18, AttrForm("d", 0, None, 0, 0))
  {
    assert SAMPLE[18..19] == "d";
    assert Word(SAMPLE, 18, "d", AttrStop) && Gap(SAMPLE, 19, 0);
  }

  lemma {:induction false} SampleAttrs()
    ensures AttrsStand(SAMPLE, 12, [AttrForm("b", 0, Some("c"), 0, 1), AttrForm("d", 0, None, 0, 0)])
  {
    hide AttrStands;
    var b, c := AttrForm("b", 0, Some("c"), 0, 1), AttrForm("d", 0, None, 0, 0);
    SampleAttr();
    SampleFlag();
    assert [b, c][1..] == [c] && [c][1..] == [];
    assert AttrsStand(SAMPLE, 19, []);
    assert AttrsStand(SAMPLE, 18, [c]);
  }

  lemma {:induction false} SampleEmpty()
    ensures BodyStands(SAMPLE, 22, "e", Empty(0, 0)) && AttrsStand(SAMPLE, 22, [])
    ensures Word(SAMPLE, 21, "e", NameStop) && Gap(SAMPLE, 21, 0) && Gap(SAMPLE, 22, 0)
  {
    assert SAMPLE[21..22] == "e";
    assert Gap(SAMPLE, 23, 0) && Gap(SAMPLE, 24, 0);
  }

  lemma {:induction false} SampleLeaf(e: NodeForm)
    requires e == NodeForm([], 0, "e", 0, [], Empty(0, 0))
    ensures NodeStands(SAMPLE, 20, e) && NodeSpan(e) == 4
  {
    hide Gap, Word, AttrsStand, BodyStands;
    SampleEmpty();
    assert ElementStands(SAMPLE, 20, e);
  }

  lemma {:induction false} SampleChild()
    ensures NodesStand(SAMPLE, 20, [NodeForm([], 0, "e", 0, [], Empty(0, 0))])
  {
    hide NodeStands, NodeSpan;
    var e := NodeForm([], 0, "e", 0, [], Empty(0, 0));
    SampleLeaf(e);
    assert [e][1..] == [] && NodesStand(SAMPLE, 24, []);
  }

  lemma {:induction false} SampleEnd()
    ensures EndStands(SAMPLE, 25, "a", EndForm(0, 0, "A", 1, 0)) && Word(SAMPLE, 24, "z", Only('<'))
  {
    assert SAMPLE[27..28] == "A" && SAMPLE[24..25] == "z";
  }

  /** A text with something of everything. */
  lemma {:induction false} SampleReads()
    ensures ParseNode(SAMPLE, 0) == Ok(Node("a", [Attr("b", "c"), Attr("d", "")], [Node("e", [], [], "")], "z"), 30)
  {
    hide *;
    var e := NodeForm([], 0, "e", 0, [], Empty(0, 0));
    var b, c := AttrForm("b", 0, Some("c"), 0, 1), AttrForm("d", 0, None, 0, 0);
    var d := NodeForm([Skip(true, 1, 0), Skip(false, 1, 0)], 0, "a", 1, [b, c],
                      Full(0, [e], "z", EndForm(0, 0, "A", 1, 0)));
    SampleSkips();
    SampleAttrs();
    SampleSpans(d);
    SampleBody(d);
    SampleElement(d);
    SampleNode(d);
    NodeIsRead(SAMPLE, 0, d);
  }

  lemma {:induction false} SampleNode(d: NodeForm)
    requires SkipsStand(SAMPLE, 0, d.skips) && SkipsSpan(d.skips) == 9 && ElementStands(SAMPLE, 9, d)
    ensures |SAMPLE| == 30 && NodeStands(SAMPLE, 0, d)
  {
    hide SkipsStand, SkipsSpan, ElementStands;
  }

  lemma {:induction false} SampleElement(d: NodeForm)
    requires d.gap == 0 && d.name == "a" && d.gap2 == 1 && AttrsSpan(d.attrs) == 7
    requires AttrsStand(SAMPLE, 12, d.attrs) && BodyStands(SAMPLE, 19, "a", d.body)
    ensures ElementStands(SAMPLE, 9, d)
  {
    hide AttrsStand, AttrsSpan, BodyStands;
    SampleName();
    assert Gap(SAMPLE, 10, 0) && Gap(SAMPLE, 11, 1);
  }

  lemma {:induction false} SampleBody(d: NodeForm)
    requires d.body == Full(0, [NodeForm([], 0, "e", 0, [], Empty(0, 0))], "z", EndForm(0, 0, "A", 1, 0))
    requires NodesSpan(d.body.children) == 4
    ensures BodyStands(SAMPLE, 19, "a", d.body)
  {
    hide NodesStand, EndStands, Word, NodesSpan;
    SampleChild();
    SampleEnd();
  }

  lemma {:induction false} SampleName()
    ensures Word(SAMPLE, 10, "a", NameStop)
  {
    assert SAMPLE[10..11] == "a";
  }

  lemma {:induction false} SampleSpans(d: NodeForm)
    requires d.skips == [Skip(true, 1, 0), Skip(false, 1, 0)] && d.gap == 0 && d.name == "a" && d.gap2 == 1
    requires d.attrs == [AttrForm("b", 0, Some("c"), 0, 1), AttrForm("d", 0, None, 0, 0)]
    requires d.body == Full(0, [NodeForm([], 0, "e", 0, [], Empty(0, 0))], "z", EndForm(0, 0, "A", 1, 0))
    ensures SkipsSpan(d.skips) == 9 && AttrsSpan(d.attrs) == 7 && NodesSpan(d.body.children) == 4 && NodeSpan(d) == 30
    ensures AttrsOf(d.attrs) == [Attr("b", "c"), Attr("d", "")]
    ensures NodeOf(d) == Node("a", [Attr("b", "c"), Attr("d", "")], [Node("e", [], [], "")], "z")
  {
    var skips, attrs, children := d.skips, d.attrs, d.body.children;
    assert skips[1..] == [skips[1]] && skips[1..][1..] == [];
    assert SkipsSpan(skips[1..]) == 4;
    assert attrs[1..] == [attrs[1]] && attrs[1..][1..] == [];
    assert AttrsSpan(attrs[1..]) == 1 && AttrsOf(attrs[1..]) == [Attr("d", "")];
    assert children[1..] == [];
    assert NodeSpan(children[0]) == 4 && NodeOf(children[0]) == Node("e", [], [], "");
    assert NodesOf(children) == [Node("e", [], [], "")] && BodySpan(d.body) == 11;
  }
}
