/** The room checks of the XML printer, what they are worth, and what its result tells. */
module XmlRoom {
  import opened Wrappers
  import opened Xml

  // ---------------------------------------------------------------------------
  // The checks
  // ---------------------------------------------------------------------------

  function AttrsRoom(attrs: seq<Attr>, room: int): Option<int> {
    if attrs == [] then Some(room)
    else if room < |attrs[0].name| + |attrs[0].value| + 4 then None
    else AttrsRoom(attrs[1..], room - |PrintAttr(attrs[0])|)
  }

  /** What is left of the room behind a node on a line of its own. */
  function NodeRoom(n: Node, indent: nat, room: int): Option<int>
    decreases n, 2
  {
    if room < |n.name| + indent + 5 then None
    else
      var left := AttrsRoom(n.attrs, room - indent - 1 - |n.name|);
      if left.None? then None else BodyRoom(n, indent, left.value)
  }

  /** The end of an empty node is put down without looking. */
  function BodyRoom(n: Node, indent: nat, room: int): Option<int>
    decreases n, 1
  {
    if n.content == "" && n.children == [] then Some(room - 3)
    else if room < 1 then None
    else
      var left := ChildrenRoom(n.children, indent, room - 1);
      if left.None? || (n.content != "" && left.value < |n.content|) then None
      else EndRoom(n, indent, left.value - |n.content|)
  }

  function EndRoom(n: Node, indent: nat, room: int): Option<int> {
    if room < |n.name| + if n.children != [] then 5 + indent else 3 then None else Some(room - |PrintEnd(n, indent)|)
  }

  function ChildrenRoom(nodes: seq<Node>, indent: nat, room: int): Option<int>
    decreases nodes, 0
  {
    if nodes == [] then Some(room)
    else if room < indent + 3 then None
    else
      var left := NodeRoom(nodes[0], indent + 1, room - 1);
      if left.None? then None else ChildrenRoom(nodes[1..], indent, left.value)
  }

  // ---------------------------------------------------------------------------
  // What passes
  // ---------------------------------------------------------------------------

  /** A node on its own line: the indentation, then the node. */
  function Line(n: Node, indent: nat): string { Spaces(indent) + PrintNode(n, indent) }

  predicate Bare(n: Node) { n.content == "" && n.children == [] }

  /** What the checks ask for beyond the attributes: the room of a value, even if there is none. */
  function AttrsSpare(attrs: seq<Attr>): int {
    if attrs != [] && attrs[|attrs| - 1].value == "" then 3 else 0
  }

  /** What the checks ask for beyond the node; where that is negative they ask for less. */
  function NodeSpare(n: Node): (r: int)
    ensures -3 <= r <= 1
  {
    if n.children != [] || (Bare(n) && n.attrs == []) then 1
    else if Bare(n) then AttrsSpare(n.attrs) - 3
    else 0
  }

  lemma {:induction false} AttrSize(a: Attr)
    ensures |PrintAttr(a)| == 1 + |a.name| + if a.value == "" then 0 else |a.value| + 3
  {
    AssignedLength(a.value);
  }

  lemma {:induction false} AttrsRoomIs(attrs: seq<Attr>, room: int)
    ensures var n, spare := |PrintAttrs(attrs)|, AttrsSpare(attrs);
            && (if attrs == [] then n == 0 else n + spare >= 4)
            && AttrsRoom(attrs, room) == if attrs != [] && n + spare > room then None else Some(room - n)
    decreases |attrs|
  {
    hide PrintAttr;
    if attrs != [] {
      AttrSize(attrs[0]);
      AttrsRoomIs(attrs[1..], room - |PrintAttr(attrs[0])|);
    }
  }

  lemma {:induction false} EndSize(n: Node, indent: nat)
    ensures |PrintEnd(n, indent)| == |n.name| + if n.children == [] then 3 else 4 + indent
  {
  }

  lemma {:induction false} LineSize(n: Node, indent: nat)
    ensures |Line(n, indent)| == indent + 1 + |n.name| + |PrintAttrs(n.attrs)| + |PrintBody(n, indent)|
  {
    hide PrintAttrs, PrintBody;
  }

  lemma {:induction false} BodySize(n: Node, indent: nat)
    ensures |PrintBody(n, indent)|
            == if Bare(n) then 3
               else 1 + |PrintChildren(n.children, indent + 1)| + |n.content| + |PrintEnd(n, indent)|
  {
    hide PrintChildren, PrintEnd;
  }

  lemma {:induction false} ChildrenSize(nodes: seq<Node>, indent: nat)
    ensures nodes == [] ==> PrintChildren(nodes, indent) == ""
    ensures nodes != [] ==>
              |PrintChildren(nodes, indent)| == 1 + |Line(nodes[0], indent)| + |PrintChildren(nodes[1..], indent)|
  {
    hide PrintNode;
  }

  lemma {:induction false} BodyRoomIs(n: Node, indent: nat, room: int)
    ensures var size := |PrintBody(n, indent)|;
            && (Bare(n) ==> BodyRoom(n, indent, room) == Some(room - 3) && size == 3)
            && (!Bare(n) ==> size + NodeSpare(n) >= 4)
            && (!Bare(n) ==> BodyRoom(n, indent, room) == if size + NodeSpare(n) > room then None else Some(room - size))
    decreases n, 1
  {
    hide PrintBody, PrintChildren, PrintEnd, ChildrenRoom;
    BodySize(n, indent);
    EndSize(n, indent);
    ChildrenRoomIs(n.children, indent, room - 1);
  }

  lemma {:induction false} ChildrenRoomIs(nodes: seq<Node>, indent: nat, room: int)
    ensures var size := |PrintChildren(nodes, indent + 1)|;
            var spare := if nodes == [] then 0 else NodeSpare(nodes[|nodes| - 1]);
            && (nodes != [] ==> size + spare >= 7 + indent)
            && ChildrenRoom(nodes, indent, room) == if nodes != [] && size + spare > room then None else Some(room - size)
    decreases nodes, 0
  {
    hide PrintChildren, NodeRoom, Line, NodeSpare;
    ChildrenSize(nodes, indent + 1);
    if nodes != [] {
      NodeRoomIs(nodes[0], indent + 1, room - 1);
      ChildrenRoomIs(nodes[1..], indent, room - 1 - |Line(nodes[0], indent + 1)|);
    }
  }

  /** A node passes the checks exactly if it and the spare room are no longer than the room there is. */
  lemma {:induction false} NodeRoomIs(n: Node, indent: nat, room: int)
    ensures var size := |Line(n, indent)|;
            && size + NodeSpare(n) >= indent + 5
            && NodeRoom(n, indent, room) == if size + NodeSpare(n) > room then None else Some(room - size)
    decreases n, 2
  {
    hide Line, BodyRoom, AttrsRoom, PrintBody, PrintAttrs;
    LineSize(n, indent);
    var left := room - indent - 1 - |n.name|;
    AttrsRoomIs(n.attrs, left);
    BodyRoomIs(n, indent, left - |PrintAttrs(n.attrs)|);
  }

  /**
   The checks of a node can be relied on, whatever the room, unless the node is empty and ends with
   an attribute that has a value: then they let up to three characters pass that do not fit.
   */
  lemma {:induction false} NodeChecksAreRight(n: Node, indent: nat)
    ensures (forall room: int :: NodeRoom(n, indent, room).Some? ==> |Line(n, indent)| <= room)
            <==> !(Bare(n) && n.attrs != [] && n.attrs[|n.attrs| - 1].value != "")
    ensures forall room: int :: NodeRoom(n, indent, room).Some? ==> |Line(n, indent)| <= room + 3
  {
    hide NodeRoom, Line;
    forall room: int
      ensures NodeRoom(n, indent, room).Some? <==> |Line(n, indent)| + NodeSpare(n) <= room
    {
      NodeRoomIs(n, indent, room);
    }
    var least := |Line(n, indent)| + NodeSpare(n);
    assert NodeRoom(n, indent, least).Some?;
  }

  // ---------------------------------------------------------------------------
  // The result
  // ---------------------------------------------------------------------------

  function Opening(prolog: bool): string { if prolog then PROLOG else "" }

  /** The printer's entry could not print: there is no buffer, or a check failed. */
  predicate Fails(n: Node, len: nat, prolog: bool) {
    len < |Opening(prolog)| || len == 0 || NodeRoom(n, 0, len - |Opening(prolog)|).None?
  }

  /** What the entry returns; the length of the prolog is added to a failure, too. */
  function PrintResult(n: Node, len: nat, prolog: bool): int {
    if len == 0 then 0
    else if len < |Opening(prolog)| then -1
    else
      var h := |Opening(prolog)|;
      var left := NodeRoom(n, 0, len - h);
      var printed := h + if left.None? then -1 else len - h - left.value;
      if printed > 0 && printed != len then printed + 1 else printed
  }

  /**
   A failure is told by a result that is not positive, or by the length of the prolog, as if that
   had been printed alone.  Without a failure the result is the size of the document, whose last
   line end is left out if everything else fills the buffer.
   */
  lemma {:induction false} ResultTells(n: Node, len: nat, prolog: bool)
    ensures var r, size := PrintResult(n, len, prolog), |Print(n, prolog)|;
            && (Fails(n, len, prolog) <==> r <= 0 || (prolog && r == |PROLOG|))
            && (r < 0 <==> len > 0 && (len < |Opening(prolog)| || (!prolog && Fails(n, len, prolog))))
            && (!Fails(n, len, prolog) ==> r == if size - 1 == len then len else size)
            && (!Fails(n, len, prolog) <==> len > 0 && size - 1 + NodeSpare(n) <= len)
  {
    hide NodeRoom, PrintNode;
    PrologSize();
    LineIs(n);
    NodeRoomIs(n, 0, len - |Opening(prolog)|);
  }

  /** An empty node with one attribute takes twelve characters of a buffer of eight. */
  lemma {:induction false} EmptyNodeOverruns()
    ensures var n := Node("a", [Attr("b", "c")], [], "");
            !Fails(n, 8, false) && Print(n, false) == "<a b=\"c\" />\n" && PrintResult(n, 8, false) == 12
  {
    var n := Node("a", [Attr("b", "c")], [], "");
    assert PrintAttr(n.attrs[0]) == " b=\"c\"";
    assert PrintAttrs(n.attrs) == " b=\"c\"";
    ResultTells(n, 8, false);
  }

  /** How a tree is laid out: a line for each node, indented by its depth. */
  lemma {:induction false} LayoutSample()
    ensures Print(Node("a", [], [Node("b", [], [], "")], ""), false) == "<a>\n <b />\n</a>\n"
  {
    var leaf := Node("b", [], [], "");
    var tree := Node("a", [], [leaf], "");
    assert PrintNode(leaf, 1) == "<b />" && Spaces(1) == " " && Spaces(0) == "";
    assert [leaf][1..] == [];
    assert PrintChildren([leaf], 1) == "\n <b />";
    assert PrintEnd(tree, 0) == "\n</a>";
    assert PrintBody(tree, 0) == ">\n <b />\n</a>";
  }

  lemma {:induction false} PrologSize()
    ensures |PROLOG| == 39
  {
  }

  lemma {:induction false} LineIs(n: Node)
    ensures Line(n, 0) == PrintNode(n, 0)
  {
    hide PrintNode;
  }
}
