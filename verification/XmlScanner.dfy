/**
 The same reader and writer as they run: a scanner object whose cursor every call
 moves, a recursive descent over it, and a printer that advances through a buffer.
 */
module XmlScanner {
  import opened Buffers
  import opened Wrappers
  import opened Xml
  import opened XmlRoom

  class Scanner {
    const text: Text
    var cur: nat

    ghost predicate Valid()
      reads this
    {
      cur <= |text|
    }

    constructor (text: Text)
      ensures Valid() && this.text == text && cur == SkipWs(text, 0)
    {
      this.text := text;
      cur := 0;
      new;
      SkipWhitespace();
    }

    function Here(): char
      reads this
    {
      At(text, cur)
    }

    method SkipSpaces()
      requires Valid()
      modifies this`cur
      ensures Valid() && old(cur) <= cur && SkipWs(text, cur) == SkipWs(text, old(cur))
      ensures Here() != ' ' && Here() != '\t'
    {
      while Here() == ' ' || Here() == '\t'
        invariant Valid() && old(cur) <= cur && SkipWs(text, cur) == SkipWs(text, old(cur))
        decreases |text| - cur
      {
        cur := cur + 1;
      }
    }

    /** Spaces first; line breaks, and any spaces after them, only once one was met. */
    method SkipWhitespace()
      requires Valid()
      modifies this`cur
      ensures cur == SkipWs(text, old(cur))
    {
      SkipSpaces();
      if Here() == '\r' || Here() == '\n' {
        while true
          invariant Valid() && SkipWs(text, cur) == SkipWs(text, old(cur))
          decreases |text| - cur
        {
          if Here() == '\r' {
            cur := cur + 1;
            if Here() == '\n' {
              cur := cur + 1;
            }
          } else if Here() == '\n' {
            cur := cur + 1;
          } else if Here() == ' ' || Here() == '\t' {
            cur := cur + 1;
            SkipSpaces();
          } else {
            break;
          }
        }
      }
    }

    /** Everything up to a stop character; an error at the end of the text. */
    method GetUntil(stop: Stop) returns (r: Option<string>)
      requires Valid()
      modifies this`cur
      ensures Valid()
      ensures old(cur) >= |text| <==> r.None?
      ensures r.Some? ==> var q := Until(text, old(cur), stop);
                          r.value == Slice(text, old(cur), q) && cur == SkipWs(text, q)
    {
      if cur >= |text| {
        return None;
      }
      var s := cur;
      while s < |text| && !Stops(stop, text[s])
        invariant cur <= s <= |text| && Until(text, s, stop) == Until(text, cur, stop)
      {
        s := s + 1;
      }
      r := Some(text[cur..s]);
      cur := s;
      SkipWhitespace();
    }

    /** One character; an error at the end of the text. */
    method GetChar() returns (r: Option<char>)
      requires Valid()
      modifies this`cur
      ensures Valid()
      ensures r.None? <==> old(cur) >= |text|
      ensures r.Some? ==> r.value == old(Here()) && cur == SkipWs(text, old(cur) + 1)
    {
      if cur >= |text| {
        return None;
      }
      r := Some(text[cur]);
      cur := cur + 1;
      SkipWhitespace();
    }

    /** A string in single or double quotes, without them. */
    method GetQuotes() returns (r: Option<string>)
      requires Valid()
      modifies this`cur
      ensures Valid()
      ensures var v := Quoted(text, old(cur));
              if v.Ok? then r == Some(v.value) && cur == v.pos else r == None
    {
      var q := Here();
      if q != '"' && q != '\'' {
        return None;
      }
      var s := ClosingQuote(text, cur + 1, q);
      if At(text, s) != q {
        return None;
      }
      r := Some(text[cur + 1..s]);
      cur := s + 1;
      SkipWhitespace();
    }

    // -- recursive descent ----------------------------------------------------------

    /** Behind "<?": up to and over the closing "?>". */
    method PassInstruction() returns (ok: bool)
      requires Valid()
      modifies this`cur
      ensures Valid()
      ensures var r := SkipInstruction(text, old(cur)); ok == r.Ok? && (ok ==> cur == r.pos)
    {
      while true
        invariant Valid() && SkipInstruction(text, cur) == SkipInstruction(text, old(cur))
        decreases |text| - cur
      {
        ghost var from := cur;
        var dummy := GetUntil(Only('?'));
        if dummy.None? {
          return false;
        }
        assert cur == Until(text, from, Only('?')) by { SkipNothing(text, Until(text, from, Only('?'))); }
        if Here() == '?' && At(text, cur + 1) == '>' {
          cur := cur + 2;
          SkipWhitespace();
          return true;
        }
        if cur + 1 > |text| {
          return false;
        }
        cur := cur + 1;
      }
    }

    /** Behind "<!": up to and over the next '>'. */
    method PassComment() returns (ok: bool)
      requires Valid()
      modifies this`cur
      ensures Valid()
      ensures var r := SkipComment(text, old(cur)); ok == r.Ok? && (ok ==> cur == r.pos)
    {
      ghost var from := cur;
      var dummy := GetUntil(Only('>'));
      if dummy.None? {
        return false;
      }
      assert cur == Until(text, from, Only('>')) by { SkipNothing(text, Until(text, from, Only('>'))); }
      if cur + 1 > |text| {
        return false;
      }
      cur := cur + 1;
      SkipWhitespace();
      return true;
    }

    /** One attribute, with or without a value. */
    method GetAttribute() returns (r: Option<Attr>)
      requires Valid() && Here() != '>' && Here() != '/'
      modifies this`cur
      ensures Valid()
      ensures if r.Some? then old(cur) < cur && ParseAttrs(text, old(cur)) == More(r.value, ParseAttrs(text, cur))
              else ParseAttrs(text, old(cur)).SyntaxError?
    {
      hide SkipWs, Until, Quoted, Slice;
      var name := GetUntil(AttrStop);
      if name.None? {
        return None;
      }
      if Here() != '=' {
        return Some(Attr(name.value, ""));
      }
      var eq := GetChar();
      var v := GetQuotes();
      return if v.None? then None else Some(Attr(name.value, v.value));
    }

    /** The attributes are appended one by one until '>' or '/'. */
    method GetAttributes() returns (r: Option<seq<Attr>>)
      requires Valid()
      modifies this`cur
      ensures Valid()
      ensures var a := ParseAttrs(text, old(cur));
              if a.Ok? then r == Some(a.value) && cur == a.pos else r == None
    {
      hide ParseAttrs;
      var attrs: seq<Attr> := [];
      PrependNothing(ParseAttrs(text, cur));
      while Here() != '>' && Here() != '/'
        invariant Valid()
        invariant ParseAttrs(text, old(cur)) == Prepend(attrs, ParseAttrs(text, cur))
        decreases |text| - cur
      {
        var a := GetAttribute();
        if a.None? {
          return None;
        }
        PrependMore(attrs, a.value, ParseAttrs(text, cur));
        attrs := attrs + [a.value];
      }
      AttrsEnd(text, cur);
      assert attrs + [] == attrs;
      return Some(attrs);
    }

    /** One node; None stands for the syntax error that ends the whole parse. */
    method GetNode() returns (r: Option<Node>)
      requires Valid()
      modifies this`cur
      ensures Valid()
      ensures var n := ParseNode(text, old(cur));
              if n.Ok? then r == Some(n.value) && cur == n.pos else r == None
      decreases |text| - cur, 0
    {
      hide SkipWs, Until, Slice, ParseAttrs, ParseChildren, ParseEnd, SkipInstruction, SkipComment;
      if Here() != '<' {
        return None;
      }
      if At(text, cur + 1) == '?' {
        cur := cur + 2;
        var ok := PassInstruction();
        if !ok {
          return None;
        }
        r := GetNode();
        return;
      }
      if cur + 2 > |text| {
        return None;
      }
      if At(text, cur + 1) == '!' {
        cur := cur + 2;
        var ok := PassComment();
        if !ok {
          return None;
        }
        r := GetNode();
        return;
      }
      var lt := GetChar();
      r := GetElement();
    }

    /** Behind the '<' of a start tag. */
    method GetElement() returns (r: Option<Node>)
      requires Valid()
      modifies this`cur
      ensures Valid()
      ensures var n := ParseElement(text, old(cur));
              if n.Ok? then r == Some(n.value) && cur == n.pos else r == None
      decreases |text| - cur, 2
    {
      hide SkipWs, Until, Slice, ParseAttrs, ParseChildren, ParseEnd;
      var name := GetUntil(NameStop);
      if name.None? {
        return None;
      }
      var attrs := GetAttributes();
      if attrs.None? {
        return None;
      }
      if Here() == '/' {
        var slash := GetChar();
        var gt := GetChar();
        return if gt != Some('>') then None else Some(Node(name.value, attrs.value, [], ""));
      }
      var gt := GetChar();
      var children := GetChildren();
      if children.None? {
        return None;
      }
      var content := "";
      ghost var from := cur;
      if cur < |text| && Here() != '<' {
        var c := GetUntil(Only('<'));
        content := c.value;
      }
      ContentEnds(text, from);
      var ok := GetEnd(name.value);
      return if ok then Some(Node(name.value, attrs.value, children.value, content)) else None;
    }

    /** Children are parsed for as long as a '<' is not followed by '/'. */
    method GetChildren() returns (r: Option<seq<Node>>)
      requires Valid()
      modifies this`cur
      ensures Valid()
      ensures var c := ParseChildren(text, old(cur));
              if c.Ok? then r == Some(c.value) && cur == c.pos else r == None
      decreases |text| - cur, 1
    {
      hide ParseNode;
      var nodes: seq<Node> := [];
      PrependNothing(ParseChildren(text, cur));
      while Here() == '<' && At(text, cur + 1) != '/'
        invariant Valid() && old(cur) <= cur
        invariant ParseChildren(text, old(cur)) == Prepend(nodes, ParseChildren(text, cur))
        decreases |text| - cur
      {
        var n := GetNode();
        if n.None? {
          return None;
        }
        PrependMore(nodes, n.value, ParseChildren(text, cur));
        nodes := nodes + [n.value];
      }
      assert nodes + [] == nodes;
      return Some(nodes);
    }

    method GetEnd(name: string) returns (ok: bool)
      requires Valid()
      modifies this`cur
      ensures Valid()
      ensures var r := ParseEnd(text, old(cur), name); ok == r.Ok? && (ok ==> cur == r.pos)
    {
      hide SkipWs, Until, Slice;
      var lt := GetChar();
      if lt != Some('<') {
        return false;
      }
      var slash := GetChar();
      if slash != Some('/') {
        return false;
      }
      var endName := GetUntil(EndStop);
      if endName.None? || !SameName(name, endName.value) {
        return false;
      }
      var gt := GetChar();
      return gt == Some('>');
    }
  }

  method Read(text: Text) returns (r: Option<Node>)
    ensures r == if Parse(text).Ok? then Some(Parse(text).value) else None
  {
    if text == "" {
      return None;
    }
    var scanner := new Scanner(text);
    r := scanner.GetNode();
  }

  lemma AttrsEnd(t: Text, p: nat)
    requires p < |t| && (t[p] == '>' || t[p] == '/')
    ensures ParseAttrs(t, p) == Ok([], p)
  {
  }

  /** Reading the content up to '<' moves nothing further and skips no space. */
  lemma ContentEnds(t: Text, p: nat)
    requires p <= |t|
    ensures var q := Until(t, p, Only('<'));
            && (At(t, p) == '<' || p == |t| ==> q == p) && SkipWs(t, q) == q && Slice(t, p, p) == ""
  {
    SkipNothing(t, Until(t, p, Only('<')));
  }

  lemma PrependNothing<T>(r: Result<seq<T>>)
    ensures Prepend([], r) == r
  {
    if r.Ok? {
      assert [] + r.value == r.value;
    }
  }

  function Prepend<T>(xs: seq<T>, r: Result<seq<T>>): Result<seq<T>> {
    if r.Ok? then Ok(xs + r.value, r.pos) else SyntaxError
  }

  lemma PrependMore<T>(xs: seq<T>, x: T, r: Result<seq<T>>)
    ensures Prepend(xs, More(x, r)) == Prepend(xs + [x], r)
  {
    if r.Ok? {
      assert xs + ([x] + r.value) == xs + [x] + r.value;
    }
  }

  method ClosingQuote(text: Text, start: nat, q: char) returns (s: nat)
    requires 1 <= start <= |text| && q != '\0'
    ensures s == QuoteEnd(text, start, q)
  {
    s := start;
    while true
      invariant start <= s <= |text| && QuoteEnd(text, s, q) == QuoteEnd(text, start, q)
      decreases |text| - s
    {
      s := NextQuote(text, s, q);
      if At(text, s) != q || text[s - 1] != '\\' || s == 2 {
        return;
      }
      var n := CountBackslashes(text, s - 2);
      if n % 2 == 1 {
        return s + 1;
      }
      s := s + 1;
    }
  }

  method NextQuote(text: Text, start: nat, q: char) returns (s: nat)
    requires start <= |text|
    ensures s == Until(text, start, QuoteStop(q))
  {
    s := start;
    while s < |text| && text[s] != '\n' && text[s] != q
      invariant start <= s <= |text| && Until(text, s, QuoteStop(q)) == Until(text, start, QuoteStop(q))
    {
      s := s + 1;
    }
  }

  method CountBackslashes(text: Text, from: int) returns (n: nat)
    requires from < |text|
    ensures n == Backslashes(text, from)
  {
    var r := from;
    while r > 0 && text[r] == '\\'
      invariant r <= from && Backslashes(text, from) == Backslashes(text, r) + (from - r)
    {
      r := r - 1;
    }
    return from - r;
  }

  // ---------------------------------------------------------------------------
  // Writer
  // ---------------------------------------------------------------------------

  lemma {:induction false} AttrsRoomNext(attrs: seq<Attr>, i: nat, room: int)
    requires i < |attrs|
    ensures AttrsRoom(attrs[i..], room)
            == if room < |attrs[i].name| + |attrs[i].value| + 4 then None
               else AttrsRoom(attrs[i + 1..], room - |PrintAttr(attrs[i])|)
    ensures PrintAttrs(attrs[i..]) == PrintAttr(attrs[i]) + PrintAttrs(attrs[i + 1..])
  {
    hide PrintAttr;
    assert attrs[i..][1..] == attrs[i + 1..];
  }

  /** Writes the attributes in front of `end`, unless the room runs out. */
  method PutAttrs(buf: array<char>, p: nat, end: nat, attrs: seq<Attr>) returns (ok: bool, q: nat)
    requires p <= end <= buf.Length
    modifies buf
    ensures forall i :: 0 <= i < p ==> buf[i] == old(buf[i])
    ensures AttrsRoom(attrs, end - p) == if ok then Some(end - q) else None
    ensures ok ==> q == p + |PrintAttrs(attrs)| <= end && buf[..] == Overwrite(old(buf[..]), p, PrintAttrs(attrs))
  {
    hide Overwrite, PrintAttr, PrintAttrs, AttrsRoom;
    ok, q := true, p;
    ghost var done := "";
    OverwriteNothing(buf[..], p);
    assert attrs[0..] == attrs;
    for i := 0 to |attrs|
      invariant ok && q == p + |done| <= end && done + PrintAttrs(attrs[i..]) == PrintAttrs(attrs)
      invariant AttrsRoom(attrs[i..], end - q) == AttrsRoom(attrs, end - p)
      invariant buf[..] == Overwrite(old(buf[..]), p, done)
      invariant forall k :: 0 <= k < p ==> buf[k] == old(buf[k])
    {
      ghost var a := PrintAttr(attrs[i]);
      AttrsRoomNext(attrs, i, end - q);
      AttrSize(attrs[i]);
      if end - q < |attrs[i].name| + |attrs[i].value| + 4 {
        return false, q;
      }
      assert done + (a + PrintAttrs(attrs[i + 1..])) == done + a + PrintAttrs(attrs[i + 1..]);
      q := PutAttr(buf, q, attrs[i]);
      OverwriteTwice(old(buf[..]), p, done, a);
      done := done + a;
      OverwriteKeeps(old(buf[..]), p, done);
    }
    assert attrs[|attrs|..] == [];
    NoAttrs(end - q);
    assert done + "" == done;
  }

  lemma {:induction false} NoAttrs(room: int)
    ensures PrintAttrs([]) == "" && AttrsRoom([], room) == Some(room)
  {
  }

  method PutAttr(buf: array<char>, p: nat, a: Attr) returns (q: nat)
    requires p + |PrintAttr(a)| <= buf.Length
    modifies buf
    ensures q == p + |PrintAttr(a)| && buf[..] == Overwrite(old(buf[..]), p, PrintAttr(a))
  {
    hide Overwrite;
    AssignedLength(a.value);
    ghost var b := buf[..];
    q := Put(buf, p, " ");
    q := Put(buf, q, a.name);
    OverwriteTwice(b, p, " ", a.name);
    ghost var done := " " + a.name;
    if a.value != "" {
      q := Put(buf, q, "=\"");
      OverwriteTwice(b, p, done, "=\"");
      q := Put(buf, q, a.value);
      OverwriteTwice(b, p, done + "=\"", a.value);
      q := Put(buf, q, "\"");
      OverwriteTwice(b, p, done + "=\"" + a.value, "\"");
      assert PrintAttr(a) == done + "=\"" + a.value + "\"";
    } else {
      assert PrintAttr(a) == done;
    }
  }

  /**
   Writes a node on a line of its own in front of `end`, unless the room runs out.  The end of an
   empty node may go three characters beyond.
   */
  method PutNode(buf: array<char>, p: nat, end: nat, n: Node, indent: nat) returns (ok: bool, q: nat)
    requires p <= end && end + 3 <= buf.Length
    modifies buf
    ensures forall i :: 0 <= i < p ==> buf[i] == old(buf[i])
    ensures NodeRoom(n, indent, end - p) == if ok then Some(end - q) else None
    ensures ok ==> q == p + |Line(n, indent)| <= end + 3 && buf[..] == Overwrite(old(buf[..]), p, Line(n, indent))
    decreases n, 2
  {
    hide Overwrite, PrintAttrs, PrintBody, AttrsRoom, BodyRoom;
    if end - p < |n.name| + indent + 5 {
      return false, p;
    }
    ghost var b, attrs := buf[..], PrintAttrs(n.attrs);
    ghost var start := Spaces(indent) + "<" + n.name;
    assert Line(n, indent) == start + attrs + PrintBody(n, indent);
    q := Put(buf, p, Spaces(indent));
    q := Put(buf, q, "<");
    OverwriteTwice(b, p, Spaces(indent), "<");
    q := Put(buf, q, n.name);
    OverwriteTwice(b, p, Spaces(indent) + "<", n.name);
    ok, q := PutAttrs(buf, q, end, n.attrs);
    if ok {
      OverwriteTwice(b, p, start, attrs);
      ok, q := PutBody(buf, q, end, n, indent);
      if ok {
        OverwriteTwice(b, p, start + attrs, PrintBody(n, indent));
      }
    }
  }

  method PutBody(buf: array<char>, p: nat, end: nat, n: Node, indent: nat) returns (ok: bool, q: nat)
    requires p <= end && end + 3 <= buf.Length
    modifies buf
    ensures forall i :: 0 <= i < p ==> buf[i] == old(buf[i])
    ensures BodyRoom(n, indent, end - p) == if ok then Some(end - q) else None
    ensures ok ==>
              && q == p + |PrintBody(n, indent)| <= end + 3
              && buf[..] == Overwrite(old(buf[..]), p, PrintBody(n, indent))
    decreases n, 1
  {
    hide Overwrite, PrintChildren, PrintEnd, ChildrenRoom, EndRoom;
    if n.content == "" && n.children == [] {
      q := Put(buf, p, " />");
      return true, q;
    }
    if end - p < 1 {
      return false, p;
    }
    ghost var b, c := buf[..], PrintChildren(n.children, indent + 1);
    q := Put(buf, p, ">");
    ok, q := PutChildren(buf, q, end, n.children, indent);
    if !ok {
      return;
    }
    OverwriteTwice(b, p, ">", c);
    if n.content != "" && end - q < |n.content| {
      return false, q;
    }
    q := Put(buf, q, n.content);
    OverwriteTwice(b, p, ">" + c, n.content);
    ok, q := PutEnd(buf, q, end, n, indent);
    if ok {
      OverwriteTwice(b, p, ">" + c + n.content, PrintEnd(n, indent));
    }
  }

  /** Writes the children of a node that stands `indent` deep. */
  method PutChildren(buf: array<char>, p: nat, end: nat, nodes: seq<Node>, indent: nat) returns (ok: bool, q: nat)
    requires p <= end && end + 3 <= buf.Length
    modifies buf
    ensures forall i :: 0 <= i < p ==> buf[i] == old(buf[i])
    ensures ChildrenRoom(nodes, indent, end - p) == if ok then Some(end - q) else None
    ensures ok ==>
              && q == p + |PrintChildren(nodes, indent + 1)| <= end + 3
              && buf[..] == Overwrite(old(buf[..]), p, PrintChildren(nodes, indent + 1))
    decreases nodes, 0
  {
    hide *;
    ok, q := true, p;
    ghost var done := "";
    OverwriteNothing(buf[..], p);
    assert nodes[0..] == nodes;
    for i := 0 to |nodes|
      invariant ok && q == p + |done| <= end + 3
      invariant done + PrintChildren(nodes[i..], indent + 1) == PrintChildren(nodes, indent + 1)
      invariant ChildrenRoom(nodes[i..], indent, end - q) == ChildrenRoom(nodes, indent, end - p)
      invariant buf[..] == Overwrite(old(buf[..]), p, done)
      invariant forall k :: 0 <= k < p ==> buf[k] == old(buf[k])
    {
      ghost var line, rest := "\n" + Line(nodes[i], indent + 1), PrintChildren(nodes[i + 1..], indent + 1);
      assert nodes[i..][1..] == nodes[i + 1..];
      ChildLine(nodes[i..], indent, end - q);
      assert done + (line + rest) == done + line + rest;
      if end - q < indent + 3 {
        return false, q;
      }
      ok, q := PutLine(buf, q, end, nodes[i], indent + 1);
      if !ok {
        return;
      }
      OverwriteTwice(old(buf[..]), p, done, line);
      done := done + line;
    }
    NoChildren(indent + 1);
    NoChildrenRoom(indent, end - q);
    assert done + "" == done;
  }

  method PutLine(buf: array<char>, p: nat, end: nat, n: Node, indent: nat) returns (ok: bool, q: nat)
    requires p < end && end + 3 <= buf.Length
    modifies buf
    ensures forall i :: 0 <= i < p ==> buf[i] == old(buf[i])
    ensures NodeRoom(n, indent, end - p - 1) == if ok then Some(end - q) else None
    ensures ok ==>
              && q == p + |"\n" + Line(n, indent)| <= end + 3
              && buf[..] == Overwrite(old(buf[..]), p, "\n" + Line(n, indent))
    decreases n, 3
  {
    hide *;
    ghost var b := buf[..];
    q := Put(buf, p, "\n");
    ok, q := PutNode(buf, q, end, n, indent);
    if ok {
      OverwriteTwice(b, p, "\n", Line(n, indent));
    }
  }

  lemma {:induction false} ChildLine(nodes: seq<Node>, indent: nat, room: int)
    requires nodes != []
    ensures PrintChildren(nodes, indent + 1) == "\n" + Line(nodes[0], indent + 1) + PrintChildren(nodes[1..], indent + 1)
    ensures var left := NodeRoom(nodes[0], indent + 1, room - 1);
            ChildrenRoom(nodes, indent, room)
            == if room < indent + 3 || left.None? then None else ChildrenRoom(nodes[1..], indent, left.value)
  {
    hide PrintNode, NodeRoom;
    assert "\n" + Spaces(indent + 1) + PrintNode(nodes[0], indent + 1) == "\n" + Line(nodes[0], indent + 1);
  }

  lemma {:induction false} NoChildrenRoom(indent: nat, room: int)
    ensures ChildrenRoom([], indent, room) == Some(room)
  {
  }

  method PutEnd(buf: array<char>, p: nat, end: nat, n: Node, indent: nat) returns (ok: bool, q: nat)
    requires p <= buf.Length && end <= buf.Length
    modifies buf
    ensures forall i :: 0 <= i < p ==> buf[i] == old(buf[i])
    ensures EndRoom(n, indent, end - p) == if ok then Some(end - q) else None
    ensures ok ==>
              && q == p + |PrintEnd(n, indent)| <= end
              && buf[..] == Overwrite(old(buf[..]), p, PrintEnd(n, indent))
  {
    hide Overwrite;
    EndSize(n, indent);
    if end - p < |n.name| + if n.children != [] then 5 + indent else 3 {
      return false, p;
    }
    ok, q := true, p;
    ghost var b, done := buf[..], "";
    assert b == Overwrite(b, p, "") by { OverwriteNothing(b, p); }
    if n.children != [] {
      q := Put(buf, q, "\n");
      q := Put(buf, q, Spaces(indent));
      OverwriteTwice(b, p, "\n", Spaces(indent));
      done := "\n" + Spaces(indent);
    }
    q := Put(buf, q, "</");
    OverwriteTwice(b, p, done, "</");
    q := Put(buf, q, n.name);
    OverwriteTwice(b, p, done + "</", n.name);
    q := Put(buf, q, ">");
    OverwriteTwice(b, p, done + "</" + n.name, ">");
    assert PrintEnd(n, indent) == done + "</" + n.name + ">";
  }

  /** Writes the prolog, if there is to be one, and the node. */
  method PutDocument(n: Node, buf: array<char>, len: nat, prolog: bool) returns (ok: bool, q: nat)
    requires |Opening(prolog)| <= len && len + 3 <= buf.Length
    modifies buf
    ensures NodeRoom(n, 0, len - |Opening(prolog)|) == if ok then Some(len - q) else None
    ensures ok ==> q == |Opening(prolog)| + |PrintNode(n, 0)| <= len + 3
    ensures ok ==> buf[..q] == Opening(prolog) + PrintNode(n, 0)
    ensures !ok ==> buf[..|Opening(prolog)|] == Opening(prolog)
  {
    hide PrintNode, NodeRoom, Overwrite;
    LineIs(n);
    OverwriteFront(buf[..], 0, Opening(prolog));
    q := Put(buf, 0, Opening(prolog));
    ghost var b := buf[..];
    assert b[..q] == Opening(prolog);
    ok, q := PutNode(buf, q, len, n, 0);
    if ok {
      OverwriteFront(b, |Opening(prolog)|, PrintNode(n, 0));
    }
  }

  /**
   Writes the whole document into a buffer said to have `len` characters.  The buffer has to have
   the characters that the checks overlook, and one for the line end behind them.
   */
  method Write(n: Node, buf: array<char>, len: nat, prolog: bool) returns (printed: int)
    requires len + 4 <= buf.Length
    modifies buf
    ensures printed == PrintResult(n, len, prolog) <= buf.Length
    ensures !Fails(n, len, prolog) ==>
              && 0 <= printed
              && buf[..printed] == if |Print(n, prolog)| - 1 == len then Print(n, prolog)[..len] else Print(n, prolog)
    ensures Fails(n, len, prolog) && printed > 0 ==> buf[..printed] == PROLOG
  {
    hide PrintNode, NodeRoom, Print, Opening;
    OpeningIs(prolog);
    Document(n, prolog);
    if len == 0 {
      return 0;
    }
    if len < |Opening(prolog)| {
      return -1;
    }
    var ok, q := PutDocument(n, buf, len, prolog);
    printed := if ok then q else |Opening(prolog)| as int - 1;
    ghost var text := if ok then buf[..q] else "";
    if printed > 0 && printed != len {
      buf[printed] := '\n';
      printed := printed + 1;
      assert ok ==> buf[..printed] == text + "\n";
    }
  }

  lemma {:induction false} OpeningIs(prolog: bool)
    ensures Opening(prolog) == if prolog then PROLOG else ""
    ensures |PROLOG| == 39 && PROLOG[38] == '\n'
  {
  }

  lemma {:induction false} Document(n: Node, prolog: bool)
    ensures Print(n, prolog) == Opening(prolog) + PrintNode(n, 0) + "\n"
    ensures Print(n, prolog)[..|Print(n, prolog)| - 1] == Opening(prolog) + PrintNode(n, 0) != ""
  {
    hide PrintAttrs, PrintBody;
  }
}
