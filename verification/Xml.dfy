/**
 The XML reader and writer of xml.c over the text scanner of scanner.c: what the
 writer prints for a tree, and what the reader makes of a text, as functions of the
 text and a position in it.
 */
module Xml {

  datatype Attr = Attr(name: string, value: string)

  datatype Node = Node(name: string, attrs: seq<Attr>, children: seq<Node>, content: string)

  /** A value and the position behind it, or the scanner's syntax error. */
  datatype Result<+T> = Ok(value: T, pos: nat) | SyntaxError

  /** The scanner takes a NUL for the end of its text. */
  type Text = t: string | forall i :: 0 <= i < |t| ==> t[i] != '\0'

  function At(t: Text, p: nat): char {
    if p < |t| then t[p] else '\0'
  }

  function Slice(t: Text, p: nat, q: nat): string
    requires p <= q <= |t|
  {
    t[p..q]
  }

  // ---------------------------------------------------------------------------
  // Scanner
  // ---------------------------------------------------------------------------

  predicate White(c: char) {
    c == ' ' || c == '\t' || c == '\r' || c == '\n'
  }

  /** The sets of characters the reader scans up to. */
  datatype Stop = NameStop | AttrStop | EndStop | QuoteStop(quote: char) | Only(c: char)

  predicate Stops(stop: Stop, c: char) {
    match stop
    case NameStop => c == ' ' || c == '/' || c == '>' || c == '\t'
    case AttrStop => c == '=' || c == '>' || c == ' ' || c == '\t'
    case EndStop => c == ' ' || c == '\t' || c == '>'
    case QuoteStop(q) => c == '\n' || c == q
    case Only(x) => c == x
  }

  /** Where the white space starting at `p` ends. */
  function SkipWs(t: Text, p: nat): (q: nat)
    requires p <= |t|
    ensures p <= q <= |t| && !White(At(t, q))
    ensures p < |t| && White(t[p]) ==> p < q
    decreases |t| - p
  {
    if p < |t| && White(t[p]) then SkipWs(t, p + 1) else p
  }

  /** The first position from `p` on that holds a stop character or is the end. */
  function Until(t: Text, p: nat, stop: Stop): (q: nat)
    requires p <= |t|
    ensures p <= q <= |t| && (q < |t| ==> Stops(stop, t[q]))
    decreases |t| - p
  {
    if p < |t| && !Stops(stop, t[p]) then Until(t, p + 1, stop) else p
  }

  /** How many backslashes end at `i`; the first character of the text is not looked at. */
  function Backslashes(t: Text, i: int): nat
    requires i < |t|
  {
    if i > 0 && t[i] == '\\' then 1 + Backslashes(t, i - 1) else 0
  }

  /** Where the search for the closing quote `q` stops. */
  function QuoteEnd(t: Text, s: nat, q: char): (e: nat)
    requires 1 <= s <= |t| && q != '\0'
    ensures s <= e <= |t|
    decreases |t| - s
  {
    var e := Until(t, s, QuoteStop(q));
    if At(t, e) != q || t[e - 1] != '\\' || e == 2 then e
    else if Backslashes(t, e - 2) % 2 == 1 then e + 1
    else QuoteEnd(t, e + 1, q)
  }

  function Quoted(t: Text, p: nat): (r: Result<string>)
    requires p <= |t|
    ensures r.Ok? ==> p < r.pos <= |t|
  {
    if At(t, p) != '"' && At(t, p) != '\'' then SyntaxError
    else
      var e := QuoteEnd(t, p + 1, t[p]);
      if At(t, e) != t[p] then SyntaxError else Ok(Slice(t, p + 1, e), SkipWs(t, e + 1))
  }

  // ---------------------------------------------------------------------------
  // Reader
  // ---------------------------------------------------------------------------

  function ParseAttrs(t: Text, p: nat): (r: Result<seq<Attr>>)
    requires p <= |t|
    ensures r.Ok? ==> p <= r.pos < |t| && (t[r.pos] == '>' || t[r.pos] == '/')
    decreases |t| - p
  {
    if At(t, p) == '>' || At(t, p) == '/' then Ok([], p)
    else if p >= |t| then SyntaxError
    else
      var q := Until(t, p, AttrStop);
      var p1 := SkipWs(t, q);
      if At(t, p1) == '=' then
        var v := Quoted(t, SkipWs(t, p1 + 1));
        if v.SyntaxError? then SyntaxError
        else More(Attr(Slice(t, p, q), v.value), ParseAttrs(t, v.pos))
      else More(Attr(Slice(t, p, q), ""), ParseAttrs(t, p1))
  }

  function More<T>(x: T, r: Result<seq<T>>): Result<seq<T>> {
    if r.Ok? then Ok([x] + r.value, r.pos) else SyntaxError
  }

  /** Behind a processing instruction whose body starts at `p`. */
  function SkipInstruction(t: Text, p: nat): (r: Result<()>)
    requires p <= |t|
    ensures r.Ok? ==> p < r.pos <= |t|
    decreases |t| - p
  {
    var q := Until(t, p, Only('?'));
    if q >= |t| then SyntaxError
    else if At(t, q + 1) == '>' then Ok((), SkipWs(t, q + 2))
    else SkipInstruction(t, q + 1)
  }

  /** Behind a comment or declaration whose body starts at `p`. */
  function SkipComment(t: Text, p: nat): (r: Result<()>)
    requires p <= |t|
    ensures r.Ok? ==> p < r.pos <= |t|
  {
    var q := Until(t, p, Only('>'));
    if q >= |t| then SyntaxError else Ok((), SkipWs(t, q + 1))
  }

  function Lower(c: char): char {
    if 'A' <= c <= 'Z' then (c as int + 32) as char else c
  }

  predicate SameName(a: string, b: string) {
    |a| == |b| && forall i :: 0 <= i < |a| ==> Lower(a[i]) == Lower(b[i])
  }

  function ParseNode(t: Text, p: nat): (r: Result<Node>)
    requires p <= |t|
    ensures r.Ok? ==> p < r.pos <= |t|
    decreases |t| - p, 0
  {
    if At(t, p) != '<' then SyntaxError
    else if At(t, p + 1) == '?' then
      var r := SkipInstruction(t, p + 2);
      if r.Ok? then ParseNode(t, r.pos) else SyntaxError
    else if p + 2 > |t| then SyntaxError
    else if At(t, p + 1) == '!' then
      var r := SkipComment(t, p + 2);
      if r.Ok? then ParseNode(t, r.pos) else SyntaxError
    else ParseElement(t, SkipWs(t, p + 1))
  }

  /** A node from behind its '<'. */
  function ParseElement(t: Text, p: nat): (r: Result<Node>)
    requires p <= |t|
    ensures r.Ok? ==> p < r.pos <= |t|
    decreases |t| - p, 2
  {
    if p >= |t| then SyntaxError
    else
      var q := Until(t, p, NameStop);
      var attrs := ParseAttrs(t, SkipWs(t, q));
      if attrs.SyntaxError? then SyntaxError
      else if t[attrs.pos] == '/' then
        var p1 := SkipWs(t, attrs.pos + 1);
        if At(t, p1) != '>' then SyntaxError
        else Ok(Node(Slice(t, p, q), attrs.value, [], ""), SkipWs(t, p1 + 1))
      else
        var children := ParseChildren(t, SkipWs(t, attrs.pos + 1));
        if children.SyntaxError? then SyntaxError
        else
          var end := Until(t, children.pos, Only('<'));
          var r := ParseEnd(t, end, Slice(t, p, q));
          if r.SyntaxError? then SyntaxError
          else Ok(Node(Slice(t, p, q), attrs.value, children.value, Slice(t, children.pos, end)), r.pos)
  }

  function ParseChildren(t: Text, p: nat): (r: Result<seq<Node>>)
    requires p <= |t|
    ensures r.Ok? ==> p <= r.pos <= |t|
    decreases |t| - p, 1
  {
    if At(t, p) == '<' && At(t, p + 1) != '/' then
      var n := ParseNode(t, p);
      if n.SyntaxError? then SyntaxError else More(n.value, ParseChildren(t, n.pos))
    else Ok([], p)
  }

  /** The end tag of a node called `name`. */
  function ParseEnd(t: Text, p: nat, name: string): (r: Result<()>)
    requires p <= |t|
    ensures r.Ok? ==> p < r.pos <= |t|
  {
    if At(t, p) != '<' then SyntaxError
    else
      var p1 := SkipWs(t, p + 1);
      if At(t, p1) != '/' then SyntaxError
      else
        var p2 := SkipWs(t, p1 + 1);
        if p2 >= |t| then SyntaxError
        else
          var q := Until(t, p2, EndStop);
          var p3 := SkipWs(t, q);
          if !SameName(name, Slice(t, p2, q)) || At(t, p3) != '>' then SyntaxError
          else Ok((), SkipWs(t, p3 + 1))
  }

  /** The reader's entry: an empty text and a syntax error both give no node. */
  function Parse(t: Text): Result<Node> {
    if t == "" then SyntaxError else ParseNode(t, SkipWs(t, 0))
  }

  // ---------------------------------------------------------------------------
  // Writer
  // ---------------------------------------------------------------------------

  function Spaces(n: nat): string {
    seq(n, _ => ' ')
  }

  function PrintAttr(a: Attr): string {
    " " + a.name + Assigned(a.value)
  }

  function PrintAttrs(attrs: seq<Attr>): string {
    if attrs == [] then "" else PrintAttr(attrs[0]) + PrintAttrs(attrs[1..])
  }

  /** A node without the spaces in front of it. */
  function PrintNode(n: Node, indent: nat): string
    decreases n, 2
  {
    "<" + n.name + PrintAttrs(n.attrs) + PrintBody(n, indent)
  }

  function PrintBody(n: Node, indent: nat): string
    decreases n, 1
  {
    if n.content == "" && n.children == [] then " />"
    else ">" + PrintChildren(n.children, indent + 1) + n.content + PrintEnd(n, indent)
  }

  function PrintEnd(n: Node, indent: nat): string {
    (if n.children == [] then "" else "\n" + Spaces(indent)) + "</" + n.name + ">"
  }

  function PrintChildren(nodes: seq<Node>, indent: nat): string
    decreases nodes, 0
  {
    if nodes == [] then ""
    else "\n" + Spaces(indent) + PrintNode(nodes[0], indent) + PrintChildren(nodes[1..], indent)
  }

  const DECLARATION: string := "xml version=\"1.0\" encoding=\"UTF-8\""

  const PROLOG: string := "<?" + DECLARATION + "?>\n"

  function Print(n: Node, prolog: bool): string {
    (if prolog then PROLOG else "") + PrintNode(n, 0) + "\n"
  }

  // ---------------------------------------------------------------------------
  // Trees that survive printing
  // ---------------------------------------------------------------------------

  predicate Without(s: string, stop: Stop) {
    forall i :: 0 <= i < |s| ==> !Stops(stop, s[i]) && s[i] != '\0'
  }

  predicate NodeName(s: string) {
    s != "" && s[0] != '?' && s[0] != '!' && !White(s[0]) && Without(s, NameStop)
  }

  predicate AttrName(s: string) {
    s != "" && s[0] != '/' && !White(s[0]) && Without(s, AttrStop)
  }

  predicate AttrValue(s: string) {
    Without(s, QuoteStop('"')) && (s != "" ==> s[|s| - 1] != '\\')
  }

  predicate Content(s: string) {
    Without(s, Only('<')) && (s != "" ==> !White(s[0]))
  }

  predicate GoodAttrs(attrs: seq<Attr>) {
    forall i :: 0 <= i < |attrs| ==> AttrName(attrs[i].name) && AttrValue(attrs[i].value)
  }

  /** Every name, value and content is one that the scanner reads back as it stands. */
  predicate Clean(n: Node)
    decreases n
  {
    && NodeName(n.name) && GoodAttrs(n.attrs) && Content(n.content)
    && (forall i :: 0 <= i < |n.children| ==> Clean(n.children[i]))
  }

  /** No node has both children and content. */
  predicate Unmixed(n: Node)
    decreases n
  {
    && (n.content == "" || n.children == [])
    && (forall i :: 0 <= i < |n.children| ==> Unmixed(n.children[i]))
  }

  /**
   The tree that is read back.  A content printed behind children takes the line
   break and the indentation of the end tag with it.
   */
  function Reread(n: Node, indent: nat): Node
    decreases n, 1
  {
    Node(n.name, n.attrs, RereadAll(n.children, indent + 1),
         if n.content != "" && n.children != [] then n.content + "\n" + Spaces(indent) else n.content)
  }

  function RereadAll(nodes: seq<Node>, indent: nat): (r: seq<Node>)
    ensures |r| == |nodes|
    decreases nodes, 0
  {
    if nodes == [] then [] else [Reread(nodes[0], indent)] + RereadAll(nodes[1..], indent)
  }

  /** Exactly the trees without mixed nodes are read back unchanged. */
  lemma {:induction false} RereadSame(n: Node, indent: nat)
    ensures Reread(n, indent) == n <==> Unmixed(n)
    decreases n, 1
  {
    RereadAllSame(n.children, indent + 1);
    if n.content != "" && n.children != [] {
      assert |n.content + "\n" + Spaces(indent)| > |n.content|;
    }
  }

  lemma {:induction false} RereadAllSame(nodes: seq<Node>, indent: nat)
    ensures RereadAll(nodes, indent) == nodes <==> forall i :: 0 <= i < |nodes| ==> Unmixed(nodes[i])
    decreases nodes, 0
  {
    if nodes != [] {
      var r := RereadAll(nodes, indent);
      RereadSame(nodes[0], indent);
      RereadAllSame(nodes[1..], indent);
      assert r[1..] == RereadAll(nodes[1..], indent);
      assert r == nodes <==> r[0] == nodes[0] && r[1..] == nodes[1..] by {
        assert r == [r[0]] + r[1..] && nodes == [nodes[0]] + nodes[1..];
      }
      assert forall i :: 0 < i < |nodes| ==> nodes[i] == nodes[1..][i - 1];
    }
  }

  // ---------------------------------------------------------------------------
  // Reading what was printed
  // ---------------------------------------------------------------------------

  /** `s` stands in the text at `p`. */
  predicate Has(t: Text, p: nat, s: string) {
    p + |s| <= |t| && forall i :: 0 <= i < |s| ==> s[i] == t[p + i]
  }

  lemma HasParts(t: Text, p: nat, a: string, b: string)
    requires Has(t, p, a + b)
    ensures Has(t, p, a) && Has(t, p + |a|, b)
  {
    forall i | 0 <= i < |a|
      ensures a[i] == t[p + i]
    {
      assert (a + b)[i] == a[i];
    }
    forall i | 0 <= i < |b|
      ensures b[i] == t[p + |a| + i]
    {
      assert (a + b)[|a| + i] == b[i];
    }
  }

  lemma HasSlice(t: Text, p: nat, s: string)
    requires Has(t, p, s)
    ensures Slice(t, p, p + |s|) == s
  {
  }

  lemma HasAt(t: Text, p: nat, s: string, i: nat)
    requires Has(t, p, s) && i < |s|
    ensures p + i < |t| && t[p + i] == s[i]
  {
  }

  lemma {:induction false} UntilFinds(t: Text, p: nat, s: string, stop: Stop)
    requires Has(t, p, s) && Without(s, stop)
    requires p + |s| < |t| && Stops(stop, t[p + |s|])
    ensures Until(t, p, stop) == p + |s|
    decreases |s|
  {
    if s != "" {
      HasAt(t, p, s, 0);
      assert s == s[..1] + s[1..];
      HasParts(t, p, s[..1], s[1..]);
      UntilFinds(t, p + 1, s[1..], stop);
    }
  }

  lemma {:induction false} SkipFinds(t: Text, p: nat, n: nat)
    requires Has(t, p, Spaces(n)) && !White(At(t, p + n))
    ensures SkipWs(t, p) == p + n
    decreases n
  {
    if n > 0 {
      HasAt(t, p, Spaces(n), 0);
      assert Spaces(n) == Spaces(n)[..1] + Spaces(n - 1);
      HasParts(t, p, Spaces(n)[..1], Spaces(n - 1));
      SkipFinds(t, p + 1, n - 1);
    }
  }

  /** A line break and an indentation are skipped together. */
  lemma {:induction false} SkipLine(t: Text, p: nat, n: nat)
    requires Has(t, p, "\n" + Spaces(n)) && !White(At(t, p + 1 + n))
    ensures SkipWs(t, p) == p + 1 + n
  {
    HasParts(t, p, "\n", Spaces(n));
    HasAt(t, p, "\n", 0);
    SkipFinds(t, p + 1, n);
  }

  lemma {:induction false} SkipNothing(t: Text, p: nat)
    requires p <= |t| && !White(At(t, p))
    ensures SkipWs(t, p) == p
  {
  }

  /** Where the pieces of a quoted string stand. */
  lemma {:induction false} HasQuoted(t: Text, p: nat, value: string)
    requires Has(t, p, "\"" + value + "\"")
    ensures p + |value| + 2 <= |t| && t[p] == '"' && t[p + 1 + |value|] == '"'
    ensures Has(t, p + 1, value) && Slice(t, p + 1, p + 1 + |value|) == value
  {
    HasParts(t, p, "\"" + value, "\"");
    HasParts(t, p, "\"", value);
    HasAt(t, p, "\"", 0);
    HasAt(t, p + 1 + |value|, "\"", 0);
    HasSlice(t, p + 1, value);
  }

  lemma {:induction false} QuotedReads(t: Text, p: nat, value: string)
    requires value != "" && AttrValue(value) && Has(t, p, "\"" + value + "\"")
    ensures p + |value| + 2 <= |t|
    ensures Quoted(t, p) == Ok(value, SkipWs(t, p + |value| + 2))
  {
    HasQuoted(t, p, value);
    UntilFinds(t, p + 1, value, QuoteStop('"'));
    HasAt(t, p + 1, value, |value| - 1);
    hide Has, Until, SkipWs, Without, Slice;
    assert QuoteEnd(t, p + 1, '"') == p + 1 + |value|;
  }

  /** The text of an attribute behind its name. */
  function Assigned(value: string): string {
    if value == "" then "" else "=\"" + value + "\""
  }

  lemma {:induction false} HasAttr(t: Text, p: nat, a: Attr)
    requires Has(t, p, PrintAttr(a))
    ensures |PrintAttr(a)| == 1 + |a.name| + |Assigned(a.value)| && p < |t| && t[p] == ' '
    ensures Has(t, p + 1, a.name) && Has(t, p + 1 + |a.name|, Assigned(a.value))
    ensures Slice(t, p + 1, p + 1 + |a.name|) == a.name
  {
    hide Assigned;
    var v := Assigned(a.value);
    assert PrintAttr(a) == " " + (a.name + v);
    HasParts(t, p, " ", a.name + v);
    HasParts(t, p + 1, a.name, v);
    HasAt(t, p, " ", 0);
    HasSlice(t, p + 1, a.name);
  }

  lemma {:induction false} HasAssigned(t: Text, p: nat, value: string)
    requires value != "" && Has(t, p, Assigned(value))
    ensures |Assigned(value)| == |value| + 3 && p + 1 < |t| && t[p] == '=' && t[p + 1] == '"'
    ensures Has(t, p + 1, "\"" + value + "\"")
  {
    var v := "\"" + value + "\"";
    assert Assigned(value) == "=" + v;
    HasParts(t, p, "=", v);
    HasAt(t, p, "=", 0);
    HasAt(t, p + 1, v, 0);
  }

  /** What the reader does once it knows where the attribute's name ends. */
  lemma {:induction false} AttrStep(t: Text, p: nat, q: nat)
    requires p < |t| && t[p] != '>' && t[p] != '/' && Until(t, p, AttrStop) == q
    ensures At(t, SkipWs(t, q)) != '=' ==>
              ParseAttrs(t, p) == More(Attr(Slice(t, p, q), ""), ParseAttrs(t, SkipWs(t, q)))
    ensures At(t, q) == '=' && q + 1 < |t| && t[q + 1] == '"' ==>
              var v := Quoted(t, q + 1);
              v.Ok? ==> ParseAttrs(t, p) == More(Attr(Slice(t, p, q), v.value), ParseAttrs(t, v.pos))
  {
    if At(t, q) == '=' && q + 1 < |t| && t[q + 1] == '"' {
      SkipNothing(t, q);
      SkipNothing(t, q + 1);
    }
    hide Until, SkipWs, Quoted, Slice;
  }

  /** A name standing at `p` is found up to the stop character behind it. */
  lemma {:induction false} NameFound(t: Text, p: nat, name: string, stop: Stop)
    requires name != "" && Has(t, p, name) && Without(name, stop)
    requires p + |name| < |t| && Stops(stop, t[p + |name|])
    ensures Until(t, p, stop) == p + |name| && Slice(t, p, p + |name|) == name && t[p] == name[0]
  {
    hide Without, Stops, Until, Slice;
    HasSlice(t, p, name);
    UntilFinds(t, p, name, stop);
  }

  lemma {:induction false} AttrNameFound(t: Text, p: nat, name: string)
    requires AttrName(name) && Has(t, p, name)
    requires p + |name| < |t| && (t[p + |name|] == ' ' || t[p + |name|] == '>' || t[p + |name|] == '=')
    ensures Until(t, p, AttrStop) == p + |name| && Slice(t, p, p + |name|) == name
    ensures t[p] != '>' && t[p] != '/' && !White(t[p])
  {
    NameFound(t, p, name, AttrStop);
  }

  lemma {:induction false} BareAttrReads(t: Text, p: nat, a: Attr)
    requires AttrName(a.name) && a.value == "" && Has(t, p, a.name)
    requires p + |a.name| < |t| && (t[p + |a.name|] == ' ' || t[p + |a.name|] == '>')
    requires At(t, SkipWs(t, p + |a.name|)) != '='
    ensures ParseAttrs(t, p) == More(a, ParseAttrs(t, SkipWs(t, p + |a.name|)))
  {
    hide *;
    AttrNameFound(t, p, a.name);
    AttrStep(t, p, p + |a.name|);
  }

  lemma {:induction false} ValuedAttrReads(t: Text, p: nat, a: Attr)
    requires AttrName(a.name) && a.value != "" && AttrValue(a.value)
    requires Has(t, p, a.name) && Has(t, p + |a.name|, Assigned(a.value))
    ensures p + |a.name| + |a.value| + 3 <= |t|
    ensures ParseAttrs(t, p) == More(a, ParseAttrs(t, SkipWs(t, p + |a.name| + |a.value| + 3)))
  {
    hide *;
    var e := p + |a.name|;
    HasAssigned(t, e, a.value);
    AttrNameFound(t, p, a.name);
    QuotedReads(t, e + 1, a.value);
    AttIs(t, e);
    AttrStep(t, p, e);
  }

  lemma {:induction false} AttIs(t: Text, p: nat)
    requires p < |t|
    ensures At(t, p) == t[p]
  {
  }

  /** One printed attribute, read from behind its leading space. */
  lemma {:induction false} AttrReads(t: Text, p: nat, a: Attr)
    requires AttrName(a.name) && AttrValue(a.value) && Has(t, p, PrintAttr(a))
    requires p + |PrintAttr(a)| < |t|
    requires t[p + |PrintAttr(a)|] == ' ' || t[p + |PrintAttr(a)|] == '>'
    requires At(t, SkipWs(t, p + |PrintAttr(a)|)) != '='
    ensures SkipWs(t, p) == p + 1
    ensures ParseAttrs(t, p + 1) == More(a, ParseAttrs(t, SkipWs(t, p + |PrintAttr(a)|)))
  {
    hide *;
    HasAttr(t, p, a);
    AssignedLength(a.value);
    var e := p + 1 + |a.name|;
    if a.value == "" {
      AttrNameFound(t, p + 1, a.name);
      BareAttrReads(t, p + 1, a);
    } else {
      HasAssigned(t, e, a.value);
      AttrNameFound(t, p + 1, a.name);
      ValuedAttrReads(t, p + 1, a);
    }
    SkipOne(t, p);
  }

  lemma {:induction false} SkipOne(t: Text, p: nat)
    requires p + 1 < |t| && t[p] == ' ' && !White(t[p + 1])
    ensures SkipWs(t, p) == p + 1
  {
    SkipNothing(t, p + 1);
  }

  lemma {:induction false} AssignedLength(value: string)
    ensures |Assigned(value)| == if value == "" then 0 else |value| + 3
  {
  }

  /** What follows the attributes of a printed node. */
  predicate Tail(t: Text, e: nat) {
    e < |t| && (t[e] == '>' || (t[e] == ' ' && e + 2 < |t| && t[e + 1] == '/' && t[e + 2] == '>'))
  }

  lemma {:induction false} TailSkips(t: Text, e: nat)
    requires Tail(t, e)
    ensures var f := SkipWs(t, e);
            && f == (if t[e] == '>' then e else e + 1) && f < |t| && (t[f] == '>' || t[f] == '/') && At(t, f) != '='
            && ParseAttrs(t, f) == Ok([], f)
  {
    if t[e] == '>' {
      SkipNothing(t, e);
    } else {
      SkipOne(t, e);
    }
  }

  lemma {:induction false} PrintAttrsParts(attrs: seq<Attr>)
    requires attrs != []
    ensures PrintAttrs(attrs) == PrintAttr(attrs[0]) + PrintAttrs(attrs[1..])
  {
  }

  /** The character in front of the attributes, and the one behind the space. */
  lemma {:induction false} AttrsStart(t: Text, p: nat, attrs: seq<Attr>)
    requires GoodAttrs(attrs) && Has(t, p, PrintAttrs(attrs)) && Tail(t, p + |PrintAttrs(attrs)|)
    ensures p < |t| && (t[p] == ' ' || t[p] == '>') && At(t, SkipWs(t, p)) != '='
  {
    if attrs == [] {
      TailSkips(t, p);
    } else {
      var a := attrs[0];
      PrintAttrsParts(attrs);
      HasParts(t, p, PrintAttr(a), PrintAttrs(attrs[1..]));
      HasAttr(t, p, a);
      HasAt(t, p + 1, a.name, 0);
      assert !White(t[p + 1]) && t[p + 1] != '=';
      SkipOne(t, p);
    }
  }

  lemma {:induction false} AttrsRead(t: Text, p: nat, attrs: seq<Attr>)
    requires GoodAttrs(attrs) && Has(t, p, PrintAttrs(attrs)) && Tail(t, p + |PrintAttrs(attrs)|)
    ensures p < |t| && ParseAttrs(t, SkipWs(t, p)) == Ok(attrs, SkipWs(t, p + |PrintAttrs(attrs)|))
    decreases |attrs|
  {
    hide Tail, ParseAttrs, Has, PrintAttr, SkipWs, At, AttrName, AttrValue, White;
    AttrsStart(t, p, attrs);
    if attrs == [] {
      TailSkips(t, p);
    } else {
      var a, rest := attrs[0], attrs[1..];
      PrintAttrsParts(attrs);
      HasParts(t, p, PrintAttr(a), PrintAttrs(rest));
      AttrsRead(t, p + |PrintAttr(a)|, rest);
      AttrsStart(t, p + |PrintAttr(a)|, rest);
      AttrReads(t, p, a);
      assert [a] + rest == attrs;
    }
  }

  /** How a node's text is taken apart once its name and attributes were read. */
  lemma {:induction false} NodeStep(t: Text, p: nat, q: nat, attrs: seq<Attr>, f: nat)
    requires p + 1 < |t| && t[p] == '<' && t[p + 1] != '?' && t[p + 1] != '!' && !White(t[p + 1])
    requires Until(t, p + 1, NameStop) == q && p + 1 <= q <= |t| && ParseAttrs(t, SkipWs(t, q)) == Ok(attrs, f)
    ensures f < |t|
    ensures t[f] == '/' && f + 1 < |t| && t[f + 1] == '>' ==>
              ParseNode(t, p) == Ok(Node(Slice(t, p + 1, q), attrs, [], ""), SkipWs(t, f + 2))
    ensures t[f] == '>' ==>
              var children := ParseChildren(t, SkipWs(t, f + 1));
              children.Ok? ==>
                var end := Until(t, children.pos, Only('<'));
                var r := ParseEnd(t, end, Slice(t, p + 1, q));
                r.Ok? ==> ParseNode(t, p) == Ok(Node(Slice(t, p + 1, q), attrs, children.value,
                                                     Slice(t, children.pos, end)), r.pos)
  {
    hide Until, ParseAttrs, ParseChildren, ParseEnd, Slice, SkipWs;
    SkipNothing(t, p + 1);
    if t[f] == '/' && f + 1 < |t| && t[f + 1] == '>' {
      SkipNothing(t, f + 1);
    }
  }

  lemma {:induction false} HasEnd(t: Text, p: nat, name: string)
    requires Has(t, p, "</" + name + ">")
    ensures p + |name| + 3 <= |t| && t[p] == '<' && t[p + 1] == '/' && t[p + 2 + |name|] == '>'
    ensures Has(t, p + 2, name)
  {
    HasParts(t, p, "</" + name, ">");
    HasParts(t, p, "</", name);
    HasAt(t, p, "</", 0);
    HasAt(t, p, "</", 1);
    HasAt(t, p + 2 + |name|, ">", 0);
  }

  lemma {:induction false} EndReads(t: Text, p: nat, name: string)
    requires NodeName(name) && Has(t, p, "</" + name + ">")
    ensures p + |name| + 3 <= |t| && ParseEnd(t, p, name) == Ok((), SkipWs(t, p + |name| + 3))
  {
    hide Until, Slice, Has;
    HasEnd(t, p, name);
    assert Without(name, EndStop);
    NameFound(t, p + 2, name, EndStop);
    SkipNothing(t, p + 1);
    SkipNothing(t, p + 2);
    SkipNothing(t, p + 2 + |name|);
  }

  lemma {:induction false} HasNode(t: Text, p: nat, n: Node, indent: nat)
    requires Has(t, p, PrintNode(n, indent))
    ensures |PrintNode(n, indent)| == 1 + |n.name| + |PrintAttrs(n.attrs)| + |PrintBody(n, indent)|
    ensures p < |t| && t[p] == '<' && Has(t, p + 1, n.name)
    ensures Has(t, p + 1 + |n.name|, PrintAttrs(n.attrs))
    ensures Has(t, p + 1 + |n.name| + |PrintAttrs(n.attrs)|, PrintBody(n, indent))
  {
    hide PrintAttrs, PrintBody, Has;
    var attrs, body := PrintAttrs(n.attrs), PrintBody(n, indent);
    HasParts(t, p, "<" + n.name + attrs, body);
    HasParts(t, p, "<" + n.name, attrs);
    HasParts(t, p, "<", n.name);
    HasAt(t, p, "<", 0);
  }

  lemma {:induction false} HasBody(t: Text, p: nat, n: Node, indent: nat)
    requires Has(t, p, PrintBody(n, indent))
    ensures Tail(t, p)
    ensures n.content == "" && n.children == [] ==> t[p] == ' ' && |PrintBody(n, indent)| == 3
    ensures n.content != "" || n.children != [] ==>
              var c := PrintChildren(n.children, indent + 1);
              && t[p] == '>' && |PrintBody(n, indent)| == 1 + |c| + |n.content| + |PrintEnd(n, indent)|
              && Has(t, p + 1, c) && Has(t, p + 1 + |c|, n.content)
              && Has(t, p + 1 + |c| + |n.content|, PrintEnd(n, indent))
  {
    hide PrintChildren, PrintEnd;
    if n.content == "" && n.children == [] {
      HasAt(t, p, " />", 0);
      HasAt(t, p, " />", 1);
      HasAt(t, p, " />", 2);
    } else {
      var c, e := PrintChildren(n.children, indent + 1), PrintEnd(n, indent);
      HasParts(t, p, ">" + c + n.content, e);
      HasParts(t, p, ">" + c, n.content);
      HasParts(t, p, ">", c);
      HasAt(t, p, ">", 0);
    }
  }

  /** Start of a printed node: its name is found and its attributes are read. */
  lemma {:induction false} StartReads(t: Text, p: nat, n: Node, indent: nat)
    requires Clean(n) && Has(t, p, PrintNode(n, indent))
    ensures var q := p + 1 + |n.name|;
            var e := q + |PrintAttrs(n.attrs)|;
            && q <= e < |t| && t[p] == '<' && t[p + 1] != '?' && t[p + 1] != '!' && !White(t[p + 1])
            && Until(t, p + 1, NameStop) == q && Slice(t, p + 1, q) == n.name
            && Tail(t, e) && ParseAttrs(t, SkipWs(t, q)) == Ok(n.attrs, SkipWs(t, e))
  {
    hide Until, Slice, SkipWs, ParseAttrs, PrintAttrs, PrintBody, Has, Tail, GoodAttrs, PrintNode;
    var q := p + 1 + |n.name|;
    HasNode(t, p, n, indent);
    HasBody(t, q + |PrintAttrs(n.attrs)|, n, indent);
    AttrsStart(t, q, n.attrs);
    AttrsRead(t, q, n.attrs);
    TailSkips(t, q + |PrintAttrs(n.attrs)|);
    NameFound(t, p + 1, n.name, NameStop);
  }

  lemma {:induction false} EmptyNodeReads(t: Text, p: nat, n: Node, indent: nat)
    requires Clean(n) && Has(t, p, PrintNode(n, indent)) && n.content == "" && n.children == []
    ensures p + |PrintNode(n, indent)| <= |t|
    ensures ParseNode(t, p) == Ok(n, SkipWs(t, p + |PrintNode(n, indent)|))
  {
    hide *;
    var q := p + 1 + |n.name|;
    var e := q + |PrintAttrs(n.attrs)|;
    HasNode(t, p, n, indent);
    HasBody(t, e, n, indent);
    StartReads(t, p, n, indent);
    TailSkips(t, e);
    NodeStep(t, p, q, n.attrs, SkipWs(t, e));
    assert t[e + 1] == '/' && t[e + 2] == '>' by { TailIsEmpty(t, e); }
  }

  lemma {:induction false} TailIsEmpty(t: Text, e: nat)
    requires Tail(t, e) && t[e] == ' '
    ensures e + 2 < |t| && t[e + 1] == '/' && t[e + 2] == '>'
  {
  }

  lemma {:induction false} ContentReads(t: Text, p: nat, content: string)
    requires content != "" && Content(content) && Has(t, p, content)
    requires p + |content| < |t| && t[p + |content|] == '<'
    ensures SkipWs(t, p) == p && ParseChildren(t, p) == Ok([], p)
    ensures Until(t, p, Only('<')) == p + |content| && Slice(t, p, p + |content|) == content
  {
    hide Until, Slice, Has;
    NameFound(t, p, content, Only('<'));
    SkipNothing(t, p);
  }

  lemma {:induction false} LeafEnds(t: Text, p: nat, n: Node, indent: nat)
    requires NodeName(n.name) && n.children == [] && Has(t, p, PrintEnd(n, indent))
    ensures |PrintEnd(n, indent)| == |n.name| + 3 && p < |t| && t[p] == '<'
    ensures p + |n.name| + 3 <= |t| && ParseEnd(t, p, n.name) == Ok((), SkipWs(t, p + |n.name| + 3))
  {
    hide Has, ParseEnd, SkipWs, NodeName;
    assert PrintEnd(n, indent) == "</" + n.name + ">";
    HasEnd(t, p, n.name);
    EndReads(t, p, n.name);
  }

  lemma {:induction false} LeafNodeReads(t: Text, p: nat, n: Node, indent: nat)
    requires Clean(n) && Has(t, p, PrintNode(n, indent)) && n.content != "" && n.children == []
    ensures p + |PrintNode(n, indent)| <= |t|
    ensures ParseNode(t, p) == Ok(n, SkipWs(t, p + |PrintNode(n, indent)|))
  {
    hide *;
    var q := p + 1 + |n.name|;
    var e := q + |PrintAttrs(n.attrs)|;
    HasNode(t, p, n, indent);
    HasBody(t, e, n, indent);
    NoChildren(indent + 1);
    CleanParts(n);
    StartReads(t, p, n, indent);
    TailSkips(t, e);
    NodeStep(t, p, q, n.attrs, e);
    LeafEnds(t, e + 1 + |n.content|, n, indent);
    ContentReads(t, e + 1, n.content);
  }

  lemma {:induction false} NoChildren(indent: nat)
    ensures PrintChildren([], indent) == ""
  {
  }

  lemma {:induction false} CleanParts(n: Node)
    requires Clean(n)
    ensures NodeName(n.name) && Content(n.content)
    ensures forall i :: 0 <= i < |n.children| ==> Clean(n.children[i])
  {
  }

  lemma {:induction false} HasLine(t: Text, p: nat, indent: nat, rest: string)
    requires Has(t, p, "\n" + Spaces(indent) + rest) && rest != "" && rest[0] == '<'
    ensures |"\n" + Spaces(indent) + rest| == 1 + indent + |rest|
    ensures Has(t, p + 1 + indent, rest) && p + 1 + indent < |t| && t[p + 1 + indent] == '<'
    ensures SkipWs(t, p) == p + 1 + indent
  {
    hide Has;
    HasParts(t, p, "\n" + Spaces(indent), rest);
    HasAt(t, p + 1 + indent, rest, 0);
    SkipLine(t, p, indent);
  }

  lemma {:induction false} ParentEnds(t: Text, p: nat, n: Node, indent: nat)
    requires NodeName(n.name) && n.children != [] && Has(t, p, PrintEnd(n, indent))
    ensures var f, e := SkipWs(t, p), p + |PrintEnd(n, indent)|;
            && e <= |t| && f + 1 < |t| && t[f] == '<' && t[f + 1] == '/'
            && ParseEnd(t, f, n.name) == Ok((), SkipWs(t, e))
            && Until(t, f, Only('<')) == f && Slice(t, f, f) == ""
  {
    hide Has, ParseEnd, SkipWs, NodeName;
    var tag := "</" + n.name + ">";
    assert PrintEnd(n, indent) == "\n" + Spaces(indent) + tag;
    HasLine(t, p, indent, tag);
    HasEnd(t, p + 1 + indent, n.name);
    EndReads(t, p + 1 + indent, n.name);
  }

  lemma {:induction false} HasChild(t: Text, p: nat, nodes: seq<Node>, indent: nat)
    requires nodes != [] && Clean(nodes[0]) && Has(t, p, PrintChildren(nodes, indent))
    ensures var g, one, rest := p + 1 + indent, PrintNode(nodes[0], indent), PrintChildren(nodes[1..], indent);
            && |PrintChildren(nodes, indent)| == 1 + indent + |one| + |rest|
            && SkipWs(t, p) == g && g + 1 < |t| && t[g] == '<' && t[g + 1] != '/'
            && Has(t, g, one) && Has(t, g + |one|, rest)
  {
    hide Has, SkipWs, Clean, PrintNode;
    var n, one, rest := nodes[0], PrintNode(nodes[0], indent), PrintChildren(nodes[1..], indent);
    assert PrintChildren(nodes, indent) == "\n" + Spaces(indent) + (one + rest);
    NodeBegins(n, indent);
    HasLine(t, p, indent, one + rest);
    HasParts(t, p + 1 + indent, one, rest);
    HasAt(t, p + 1 + indent, one, 1);
  }

  lemma {:induction false} NodeBegins(n: Node, indent: nat)
    requires Clean(n)
    ensures var s := PrintNode(n, indent); |s| > 1 && s[0] == '<' && s[1] != '/'
  {
    hide PrintAttrs, PrintBody;
    assert PrintNode(n, indent) == "<" + n.name + (PrintAttrs(n.attrs) + PrintBody(n, indent));
    assert !Stops(NameStop, n.name[0]);
  }

  /** The content of a mixed node runs up to its end tag. */
  lemma {:induction false} MixedContentReads(t: Text, p: nat, n: Node, indent: nat)
    requires n.content != "" && Content(n.content) && Has(t, p, n.content) && n.children != []
    requires NodeName(n.name) && Has(t, p + |n.content|, PrintEnd(n, indent))
    ensures var f, e := SkipWs(t, p + |n.content|), p + |n.content| + |PrintEnd(n, indent)|;
            && SkipWs(t, p) == p && p + 1 < |t| && t[p] != '<' && f < e <= |t|
            && Until(t, p, Only('<')) == f && Slice(t, p, f) == n.content + "\n" + Spaces(indent)
            && ParseEnd(t, f, n.name) == Ok((), SkipWs(t, e))
  {
    hide ParseEnd, Until, PrintEnd, NodeName;
    var line := "\n" + Spaces(indent);
    ParentLine(t, p + |n.content|, n, indent);
    ParentEnds(t, p + |n.content|, n, indent);
    HasAt(t, p, n.content, 0);
    SkipNothing(t, p);
    HasBoth(t, p, n.content, line);
    assert Without(n.content + line, Only('<'));
    NameFound(t, p, n.content + line, Only('<'));
    assert n.content + line == n.content + "\n" + Spaces(indent);
  }

  lemma {:induction false} HasBoth(t: Text, p: nat, a: string, b: string)
    requires Has(t, p, a) && Has(t, p + |a|, b)
    ensures Has(t, p, a + b)
  {
    forall i | 0 <= i < |a + b|
      ensures (a + b)[i] == t[p + i]
    {
      if i >= |a| {
        assert b[i - |a|] == t[p + |a| + (i - |a|)];
      }
    }
  }

  lemma {:induction false} ParentLine(t: Text, p: nat, n: Node, indent: nat)
    requires n.children != [] && Has(t, p, PrintEnd(n, indent))
    ensures Has(t, p, "\n" + Spaces(indent)) && SkipWs(t, p) == p + 1 + indent
    ensures p + 1 + indent < |t| && t[p + 1 + indent] == '<'
    ensures |PrintEnd(n, indent)| > 1 + indent
  {
    hide Has;
    var tag := "</" + n.name + ">";
    assert PrintEnd(n, indent) == "\n" + Spaces(indent) + tag;
    HasLine(t, p, indent, tag);
    HasParts(t, p, "\n" + Spaces(indent), tag);
  }

  lemma {:induction false} RereadParts(n: Node, indent: nat)
    ensures var r := Reread(n, indent);
            && r.name == n.name && r.attrs == n.attrs && r.children == RereadAll(n.children, indent + 1)
            && r.content == if n.content != "" && n.children != [] then n.content + "\n" + Spaces(indent) else n.content
  {
  }

  /** A node with children, given that its children are read. */
  lemma {:induction false} ParentNodeReads(t: Text, p: nat, n: Node, indent: nat)
    requires Clean(n) && Has(t, p, PrintNode(n, indent)) && n.children != []
    ensures p + |PrintNode(n, indent)| <= |t|
    ensures ParseNode(t, p) == Ok(Reread(n, indent), SkipWs(t, p + |PrintNode(n, indent)|))
    decreases n, 0
  {
    hide *;
    var q := p + 1 + |n.name|;
    var e := q + |PrintAttrs(n.attrs)|;
    HasNode(t, p, n, indent);
    HasBody(t, e, n, indent);
    CleanParts(n);
    StartReads(t, p, n, indent);
    TailSkips(t, e);
    NodeStep(t, p, q, n.attrs, e);
    var c := e + 1 + |PrintChildren(n.children, indent + 1)|;
    if n.content == "" {
      ParentEnds(t, c, n, indent);
    } else {
      MixedContentReads(t, c, n, indent);
    }
    ChildrenRead(t, e + 1, n.children, indent + 1);
    RereadParts(n, indent);
  }

  lemma {:induction false} ChildrenRead(t: Text, p: nat, nodes: seq<Node>, indent: nat)
    requires forall i :: 0 <= i < |nodes| ==> Clean(nodes[i])
    requires Has(t, p, PrintChildren(nodes, indent)) && p + |PrintChildren(nodes, indent)| <= |t|
    requires var f := SkipWs(t, p + |PrintChildren(nodes, indent)|);
             f + 1 < |t| && (t[f] == '<' ==> t[f + 1] == '/')
    ensures ParseChildren(t, SkipWs(t, p))
         == Ok(RereadAll(nodes, indent), SkipWs(t, p + |PrintChildren(nodes, indent)|))
    decreases nodes, 2
  {
    hide *;
    RereadAllParts(nodes, indent);
    if nodes == [] {
      NoChildren(indent);
      ChildrenStop(t, SkipWs(t, p));
    } else {
      var g := p + 1 + indent;
      HasChild(t, p, nodes, indent);
      NodeReads(t, g, nodes[0], indent);
      ChildrenRead(t, g + |PrintNode(nodes[0], indent)|, nodes[1..], indent);
      ChildrenGoOn(t, g);
    }
  }

  lemma {:induction false} ChildrenStop(t: Text, f: nat)
    requires f + 1 < |t| && (t[f] == '<' ==> t[f + 1] == '/')
    ensures ParseChildren(t, f) == Ok([], f)
  {
  }

  lemma {:induction false} RereadAllParts(nodes: seq<Node>, indent: nat)
    ensures RereadAll(nodes, indent)
         == if nodes == [] then [] else [Reread(nodes[0], indent)] + RereadAll(nodes[1..], indent)
  {
  }

  lemma {:induction false} ChildrenGoOn(t: Text, g: nat)
    requires g + 1 < |t| && t[g] == '<' && t[g + 1] != '/'
    ensures var n := ParseNode(t, g);
            n.Ok? ==> var rest := ParseChildren(t, n.pos);
                      rest.Ok? ==> ParseChildren(t, g) == Ok([n.value] + rest.value, rest.pos)
  {
    hide ParseNode;
  }

  /** What is read back for a printed node, wherever it stands and however deep it is indented. */
  lemma {:induction false} NodeReads(t: Text, p: nat, n: Node, indent: nat)
    requires Clean(n) && Has(t, p, PrintNode(n, indent))
    ensures p + |PrintNode(n, indent)| <= |t|
    ensures ParseNode(t, p) == Ok(Reread(n, indent), SkipWs(t, p + |PrintNode(n, indent)|))
    decreases n, 1
  {
    hide *;
    if n.children != [] {
      ParentNodeReads(t, p, n, indent);
    } else {
      RereadParts(n, indent);
      RereadAllParts([], indent + 1);
      if n.content != "" {
        LeafNodeReads(t, p, n, indent);
      } else {
        EmptyNodeReads(t, p, n, indent);
      }
    }
  }

  // ---------------------------------------------------------------------------
  // Whole documents
  // ---------------------------------------------------------------------------

  predicate NulFree(s: string) {
    forall i :: 0 <= i < |s| ==> s[i] != '\0'
  }

  lemma {:induction false} AttrsNulFree(attrs: seq<Attr>)
    requires GoodAttrs(attrs)
    ensures NulFree(PrintAttrs(attrs))
    decreases |attrs|
  {
    if attrs != [] {
      var a := attrs[0];
      assert NulFree(a.name) && NulFree(a.value);
      assert NulFree(PrintAttr(a));
      AttrsNulFree(attrs[1..]);
      hide PrintAttr;
      PrintAttrsParts(attrs);
    }
  }

  lemma {:induction false} NodeNulFree(n: Node, indent: nat)
    requires Clean(n)
    ensures NulFree(PrintNode(n, indent))
    decreases n, 1
  {
    hide PrintAttrs, PrintChildren;
    assert NulFree(n.name) && NulFree(n.content);
    AttrsNulFree(n.attrs);
    ChildrenNulFree(n.children, indent + 1);
  }

  lemma {:induction false} ChildrenNulFree(nodes: seq<Node>, indent: nat)
    requires forall i :: 0 <= i < |nodes| ==> Clean(nodes[i])
    ensures NulFree(PrintChildren(nodes, indent))
    decreases nodes, 2
  {
    hide PrintNode, Clean;
    if nodes != [] {
      NodeNulFree(nodes[0], indent);
      ChildrenNulFree(nodes[1..], indent);
    }
  }

  /** What is printed for such a tree is a text the scanner accepts. */
  lemma {:induction false} PrintIsText(n: Node, prolog: bool)
    requires Clean(n)
    ensures NulFree(Print(n, prolog))
  {
    hide PrintNode, Clean;
    NodeNulFree(n, 0);
  }

  lemma {:induction false} DeclarationIsPlain()
    ensures |DECLARATION| == 34 && Without(DECLARATION, Only('?'))
  {
    var a, b, c, d := "xml versi", "on=\"1.0\" ", "encoding=", "\"UTF-8\"";
    assert Without(a, Only('?')) && Without(b, Only('?')) && Without(c, Only('?')) && Without(d, Only('?'));
    assert DECLARATION == a + b + c + d;
  }

  lemma {:induction false} HasProlog(t: Text)
    requires Has(t, 0, PROLOG)
    ensures |PROLOG| == 39 <= |t| && t[0] == '<' && t[1] == '?' && Has(t, 2, DECLARATION)
    ensures t[36] == '?' && t[37] == '>' && Has(t, 38, "\n")
  {
    DeclarationIsPlain();
    hide Has;
    assert PROLOG == "<?" + (DECLARATION + ("?>" + "\n"));
    HasParts(t, 0, "<?", DECLARATION + ("?>" + "\n"));
    HasAt(t, 0, "<?", 0);
    HasAt(t, 0, "<?", 1);
    HasParts(t, 2, DECLARATION, "?>" + "\n");
    HasParts(t, 36, "?>", "\n");
    HasAt(t, 36, "?>", 0);
    HasAt(t, 36, "?>", 1);
  }

  lemma {:induction false} PrologReads(t: Text)
    requires Has(t, 0, PROLOG) && 39 < |t| && t[39] == '<'
    ensures ParseNode(t, 0) == ParseNode(t, 39)
  {
    HasProlog(t);
    DeclarationIsPlain();
    UntilFinds(t, 2, DECLARATION, Only('?'));
    assert "\n" + Spaces(0) == "\n";
    SkipLine(t, 38, 0);
  }

  /** The reader, started on a text that holds a printed node from `p` on. */
  lemma {:induction false} DocumentReads(t: Text, p: nat, n: Node)
    requires Clean(n) && p <= |t| && t[p..] == PrintNode(n, 0) + "\n"
    ensures ParseNode(t, p) == Ok(Reread(n, 0), |t|) && p < |t| && t[p] == '<'
  {
    hide PrintNode, Clean, ParseNode;
    var s := PrintNode(n, 0);
    var rest := s + "\n";
    assert forall i :: 0 <= i < |rest| ==> rest[i] == t[p..][i];
    assert Has(t, p, rest);
    HasParts(t, p, s, "\n");
    HasAt(t, p + |s|, "\n", 0);
    NodeReads(t, p, n, 0);
    NodeBegins(n, 0);
    HasAt(t, p, s, 0);
    SkipNothing(t, |t|);
  }

  /**
   Reading what was written: for every clean tree, with and without the prolog, the
   reader returns the tree itself if and only if no node mixes content and children.
   */
  lemma {:induction false} RoundTrip(n: Node, prolog: bool)
    requires Clean(n)
    ensures NulFree(Print(n, prolog))
    ensures Parse(Print(n, prolog)) == Ok(Reread(n, 0), |Print(n, prolog)|)
    ensures Parse(Print(n, prolog)) == Ok(n, |Print(n, prolog)|) <==> Unmixed(n)
  {
    hide PrintNode, Clean, ParseNode, Reread;
    PrintIsText(n, prolog);
    var t: Text := Print(n, prolog);
    var s := PrintNode(n, 0) + "\n";
    if prolog {
      assert t == PROLOG + s;
      assert Has(t, 0, PROLOG);
      HasProlog(t);
      assert t[39..] == s;
      DocumentReads(t, 39, n);
      PrologReads(t);
    } else {
      assert t == s;
      assert t[0..] == s;
      DocumentReads(t, 0, n);
    }
    SkipNothing(t, 0);
    RereadSame(n, 0);
  }

  /** The smallest mixed tree: its content comes back with a line break. */
  lemma {:induction false} MixedTreeChanges()
    ensures var n := Node("a", [], [Node("b", [], [], "")], "x");
            Clean(n) && Parse(Print(n, false)).Ok? && Parse(Print(n, false)).value.content == "x\n"
  {
    var n := Node("a", [], [Node("b", [], [], "")], "x");
    assert Clean(n.children[0]);
    RoundTrip(n, false);
    assert Spaces(0) == "";
  }
}
