/**
 Which records a message's images belong to. The parser keeps two stacks while the tags go
 by; what it computes is read off the element tree, for every balanced document.
 */
module Html {
  import opened DeliveryTypes
  import opened Unicode

  type Cid = int

  /** A tag with the attributes that matter here; a missing record marker is empty. */
  datatype Tag = Tag(name: string, record: string, cid: Option<Cid>)

  datatype Event = Open(tag: Tag) | OpenClose(tag: Tag) | Close(name: string)

  const VOID: set<string> := {
    "area", "base", "br", "col", "embed", "hr", "img", "input", "link", "meta", "param", "source", "track", "wbr"}

  predicate Shows(t: Tag, cid: Cid) {
    t.name == "img" && t.cid == Some(cid)
  }

  // ---------------------------------------------------------------- the element tree

  datatype Node = Leaf(tag: Tag) | Element(tag: Tag, children: seq<Node>)

  /** Void elements are leaves and the others are not. */
  ghost predicate NodeFits(n: Node) {
    match n
    case Leaf(tag) => tag.name in VOID
    case Element(tag, children) => tag.name !in VOID && ForestFits(children)
  }

  ghost predicate ForestFits(f: seq<Node>) {
    forall k :: 0 <= k < |f| ==> NodeFits(f[k])
  }

  /** The nonempty record markers of a path of tags. */
  function Markers(path: seq<Tag>): set<string> {
    set k | 0 <= k < |path| && Strip(path[k].record) != "" :: Strip(path[k].record)
  }

  /** The records an image with this content id belongs to, over all its occurrences in a forest. */
  ghost function Regions(f: seq<Node>, path: seq<Tag>, cid: Cid): set<string>
    decreases f
  {
    if f == [] then {}
    else Regions(f[..|f| - 1], path, cid) + NodeRegions(f[|f| - 1], path, cid)
  }

  ghost function NodeRegions(n: Node, path: seq<Tag>, cid: Cid): set<string>
    decreases n
  {
    match n
    case Leaf(tag) => if Shows(tag, cid) then Markers(path + [tag]) else {}
    case Element(tag, children) => Regions(children, path + [tag], cid)
  }

  /** Some image with this content id carries a marker that is only white space. */
  ghost predicate Blank(f: seq<Node>, cid: Cid)
    decreases f
  {
    f != [] && (Blank(f[..|f| - 1], cid) || NodeBlank(f[|f| - 1], cid))
  }

  ghost predicate NodeBlank(n: Node, cid: Cid)
    decreases n
  {
    match n
    case Leaf(tag) => Shows(tag, cid) && BlankMarker(tag)
    case Element(tag, children) => Blank(children, cid)
  }

  predicate BlankMarker(t: Tag) {
    t.record != "" && Strip(t.record) == ""
  }

  /** A forest as the tags that spell it. */
  ghost function Events(f: seq<Node>): seq<Event>
    decreases f
  {
    if f == [] then [] else Events(f[..|f| - 1]) + NodeEvents(f[|f| - 1])
  }

  ghost function NodeEvents(n: Node): seq<Event>
    decreases n
  {
    match n
    case Leaf(tag) => [Open(tag)]
    case Element(tag, children) => [Open(tag)] + Events(children) + [Close(tag.name)]
  }

  /** A self-closing tag is an empty element, and closing a void element means nothing. */
  function Plain(e: Event): seq<Event> {
    match e
    case Open(_) => [e]
    case OpenClose(tag) => if tag.name in VOID then [Open(tag)] else [Open(tag), Close(tag.name)]
    case Close(name) => if name in VOID then [] else [e]
  }

  function PlainEvents(es: seq<Event>): seq<Event> {
    if es == [] then [] else PlainEvents(es[..|es| - 1]) + Plain(es[|es| - 1])
  }

  // ---------------------------------------------------------------- the parser

  /** Everything the two stacks and the table of regions hold. */
  datatype Machine = Machine(stack: seq<string>, records: seq<string>, regions: map<Cid, set<string>>, errors: nat)

  const START: Machine := Machine([], [], map[], 0)

  function RegionsOf(m: map<Cid, set<string>>, cid: Cid): set<string> {
    if cid in m then m[cid] else {}
  }

  class Parser {
    var stack: seq<string>
    var recordStack: seq<string>
    var cidRecordIds: map<Cid, set<string>>
    /** Closing tags that matched nothing. */
    var unbalanced: nat

    constructor ()
      ensures State() == START
    {
      stack, recordStack, cidRecordIds, unbalanced := [], [], map[], 0;
    }

    function State(): Machine
      reads this
    {
      Machine(stack, recordStack, cidRecordIds, unbalanced)
    }

    method HandleStartTag(tag: Tag)
      modifies this
      ensures State() == Started(old(State()), tag)
    {
      if tag.name == "img" && tag.cid.Some? {
        var cid := tag.cid.value;
        var regions := Enclosing(recordStack);
        assert regions + {} == regions;
        if tag.record != "" {
          regions := regions + {Strip(tag.record)};
        }
        cidRecordIds := cidRecordIds[cid := RegionsOf(cidRecordIds, cid) + regions];
      }
      if tag.name !in VOID {
        stack := stack + [tag.name];
        recordStack := recordStack + [Strip(tag.record)];
      }
    }

    method HandleEndTag(name: string)
      requires |stack| == |recordStack|
      modifies this
      ensures State() == Ended(old(State()), name)
    {
      if name in VOID {
        return;
      }
      if stack == [] || stack[|stack| - 1] != name {
        unbalanced := unbalanced + 1;
      } else {
        stack := stack[..|stack| - 1];
        recordStack := recordStack[..|recordStack| - 1];
      }
    }

    method HandleStartEndTag(tag: Tag)
      requires |stack| == |recordStack|
      modifies this
      ensures State() == Ended(Started(old(State()), tag), tag.name)
    {
      HandleStartTag(tag);
      if tag.name !in VOID {
        HandleEndTag(tag.name);
      }
    }

    /** Feeding a document: on a balanced one the regions are those of its tree. */
    method Feed(es: seq<Event>)
      requires State() == START
      modifies this
      ensures State() == Parsed(es)
    {
      var n := 0;
      while n < |es|
        invariant 0 <= n <= |es|
        invariant State() == ParsedFrom(START, es[..n]) && |stack| == |recordStack|
      {
        assert es[..n + 1][..n] == es[..n];
        match es[n] {
          case Open(tag) => HandleStartTag(tag);
          case OpenClose(tag) => HandleStartEndTag(tag);
          case Close(name) => HandleEndTag(name);
        }
        n := n + 1;
      }
      assert es[..n] == es;
    }
  }

  function Enclosing(records: seq<string>): set<string> {
    set k | 0 <= k < |records| && records[k] != "" :: records[k]
  }

  function Started(m: Machine, tag: Tag): Machine {
    var own := if tag.record != "" then {Strip(tag.record)} else {};
    var m' :=
      if tag.name == "img" && tag.cid.Some?
      then m.(regions := m.regions[tag.cid.value := RegionsOf(m.regions, tag.cid.value) + (Enclosing(m.records) + own)])
      else m;
    if tag.name in VOID then m' else m'.(stack := m.stack + [tag.name], records := m.records + [Strip(tag.record)])
  }

  function Ended(m: Machine, name: string): Machine {
    if name in VOID then m
    else if m.stack == [] || |m.stack| != |m.records| || m.stack[|m.stack| - 1] != name then m.(errors := m.errors + 1)
    else m.(stack := m.stack[..|m.stack| - 1], records := m.records[..|m.records| - 1])
  }

  function Handled(m: Machine, e: Event): Machine {
    match e
    case Open(tag) => Started(m, tag)
    case OpenClose(tag) => Ended(Started(m, tag), tag.name)
    case Close(name) => Ended(m, name)
  }

  function ParsedFrom(m: Machine, es: seq<Event>): Machine {
    if es == [] then m else Handled(ParsedFrom(m, es[..|es| - 1]), es[|es| - 1])
  }

  function Parsed(es: seq<Event>): Machine {
    ParsedFrom(START, es)
  }

  predicate Balanced(es: seq<Event>) {
    Parsed(es).errors == 0 && Parsed(es).stack == []
  }

  // ---------------------------------------------------------------- runs

  lemma {:induction false} RunConcat(m: Machine, a: seq<Event>, b: seq<Event>)
    ensures ParsedFrom(m, a + b) == ParsedFrom(ParsedFrom(m, a), b)
  {
    if b == [] {
      assert a + b == a;
    } else {
      assert (a + b)[..|a + b| - 1] == a + b[..|b| - 1];
      RunConcat(m, a, b[..|b| - 1]);
    }
  }

  lemma RunOne(m: Machine, e: Event)
    ensures ParsedFrom(m, [e]) == Handled(m, e)
  {
    assert [e][..0] == [];
    assert ParsedFrom(m, []) == m;
  }

  lemma RunPlainEvent(m: Machine, e: Event)
    ensures ParsedFrom(m, Plain(e)) == Handled(m, e)
  {
    match e
    case Open(tag) => RunOne(m, e);
    case OpenClose(tag) =>
      RunOne(m, Open(tag));
      if tag.name !in VOID {
        RunOne(Started(m, tag), Close(tag.name));
        RunConcat(m, [Open(tag)], [Close(tag.name)]);
        assert [Open(tag)] + [Close(tag.name)] == Plain(e);
      }
    case Close(name) =>
      if name !in VOID {
        RunOne(m, e);
      }
  }

  lemma {:induction false} RunPlain(m: Machine, es: seq<Event>)
    ensures ParsedFrom(m, PlainEvents(es)) == ParsedFrom(m, es)
  {
    if es != [] {
      var init := es[..|es| - 1];
      RunPlain(m, init);
      RunConcat(m, PlainEvents(init), Plain(es[|es| - 1]));
      RunPlainEvent(ParsedFrom(m, init), es[|es| - 1]);
    }
  }

  // ---------------------------------------------------------------- a forest goes through the machine

  function RecordsOf(path: seq<Tag>): seq<string> {
    seq(|path|, k requires 0 <= k < |path| => Strip(path[k].record))
  }

  /** What the machine collects: the regions, and an empty one where a marker is blank. */
  ghost function Collected(f: seq<Node>, path: seq<Tag>, cid: Cid): set<string> {
    Regions(f, path, cid) + (if Blank(f, cid) then {""} else {})
  }

  ghost function NodeCollected(n: Node, path: seq<Tag>, cid: Cid): set<string> {
    NodeRegions(n, path, cid) + (if NodeBlank(n, cid) then {""} else {})
  }

  /** The same stacks, and the regions grown by those of the forest. */
  ghost predicate Passed(m: Machine, f: seq<Node>, path: seq<Tag>, m': Machine) {
    && m'.stack == m.stack && m'.records == m.records && m'.errors == m.errors
    && forall cid :: RegionsOf(m'.regions, cid) == RegionsOf(m.regions, cid) + Collected(f, path, cid)
  }

  ghost predicate NodePassed(m: Machine, n: Node, path: seq<Tag>, m': Machine) {
    && m'.stack == m.stack && m'.records == m.records && m'.errors == m.errors
    && forall cid :: RegionsOf(m'.regions, cid) == RegionsOf(m.regions, cid) + NodeCollected(n, path, cid)
  }

  lemma EnclosingIs(path: seq<Tag>, tag: Tag)
    ensures Enclosing(RecordsOf(path)) == Markers(path)
    ensures Markers(path + [tag]) == Markers(path) + (if Strip(tag.record) != "" then {Strip(tag.record)} else {})
    ensures RecordsOf(path + [tag]) == RecordsOf(path) + [Strip(tag.record)]
  {
    var r, longer := RecordsOf(path), path + [tag];
    assert forall k :: 0 <= k < |path| ==> longer[k] == path[k] && r[k] == Strip(path[k].record);
    assert longer[|path|] == tag;
    forall x | x in Markers(path) ensures x in Enclosing(r) && x in Markers(longer) {
      var k :| 0 <= k < |path| && Strip(path[k].record) != "" && x == Strip(path[k].record);
      assert r[k] == x && Strip(longer[k].record) == x;
    }
    if Strip(tag.record) != "" {
      assert Strip(longer[|path|].record) in Markers(longer);
    }
  }

  lemma LeafPasses(m: Machine, tag: Tag, path: seq<Tag>)
    requires tag.name in VOID && m.records == RecordsOf(path)
    ensures NodePassed(m, Leaf(tag), path, ParsedFrom(m, [Open(tag)]))
  {
    RunOne(m, Open(tag));
    EnclosingIs(path, tag);
    assert Strip("") == "";
  }

  lemma {:induction false} NodePasses(m: Machine, n: Node, path: seq<Tag>)
    requires NodeFits(n) && m.records == RecordsOf(path) && |m.stack| == |m.records|
    ensures NodePassed(m, n, path, ParsedFrom(m, NodeEvents(n)))
    decreases n
  {
    match n
    case Leaf(tag) => LeafPasses(m, tag, path);
    case Element(tag, children) =>
      var within := Started(m, tag);
      RunOne(m, Open(tag));
      EnclosingIs(path, tag);
      ForestPasses(within, children, path + [tag]);
      var inside := ParsedFrom(within, Events(children));
      RunConcat(m, [Open(tag)], Events(children));
      RunConcat(m, [Open(tag)] + Events(children), [Close(tag.name)]);
      RunOne(inside, Close(tag.name));
      ElementPasses(m, tag, children, path, inside);
  }

  /** Opening an element pushes it, and closing it pops it. */
  lemma ElementPasses(m: Machine, tag: Tag, children: seq<Node>, path: seq<Tag>, inside: Machine)
    requires tag.name !in VOID && |m.stack| == |m.records|
    requires Passed(Started(m, tag), children, path + [tag], inside)
    ensures NodePassed(m, Element(tag, children), path, Ended(inside, tag.name))
  {
    hide Collected, Strip;
    assert tag.name != "img";
    var m' := Ended(inside, tag.name);
    assert inside.stack[..|inside.stack| - 1] == m.stack && inside.records[..|inside.records| - 1] == m.records;
    forall cid ensures NodeCollected(Element(tag, children), path, cid) == Collected(children, path + [tag], cid) {
      ElementCollects(tag, children, path, cid);
    }
  }

  lemma ElementCollects(tag: Tag, children: seq<Node>, path: seq<Tag>, cid: Cid)
    ensures NodeCollected(Element(tag, children), path, cid) == Collected(children, path + [tag], cid)
  {
  }

  lemma {:induction false} ForestPasses(m: Machine, f: seq<Node>, path: seq<Tag>)
    requires ForestFits(f) && m.records == RecordsOf(path) && |m.stack| == |m.records|
    ensures Passed(m, f, path, ParsedFrom(m, Events(f)))
    decreases f
  {
    if f != [] {
      var init, last := f[..|f| - 1], f[|f| - 1];
      ForestPasses(m, init, path);
      var middle := ParsedFrom(m, Events(init));
      NodePasses(middle, last, path);
      RunConcat(m, Events(init), NodeEvents(last));
      forall cid ensures Collected(f, path, cid) == Collected(init, path, cid) + NodeCollected(last, path, cid) {
        ForestCollects(f, path, cid);
      }
    }
  }

  lemma ForestCollects(f: seq<Node>, path: seq<Tag>, cid: Cid)
    requires f != []
    ensures Collected(f, path, cid) == Collected(f[..|f| - 1], path, cid) + NodeCollected(f[|f| - 1], path, cid)
  {
  }

  // ---------------------------------------------------------------- a balanced run has a tree

  /** An open element and its finished elder siblings. */
  datatype Frame = Frame(tag: Tag, before: seq<Node>)

  ghost function ZipEvents(frames: seq<Frame>, current: seq<Node>): seq<Event> {
    if frames == [] then Events(current)
    else
      var top := frames[|frames| - 1];
      ZipEvents(frames[..|frames| - 1], top.before) + [Open(top.tag)] + Events(current)
  }

  ghost predicate ZipFits(frames: seq<Frame>, current: seq<Node>, stack: seq<string>) {
    && ForestFits(current) && |frames| == |stack|
    && forall k :: 0 <= k < |frames| ==>
         ForestFits(frames[k].before) && frames[k].tag.name == stack[k] && frames[k].tag.name !in VOID
  }

  lemma EventsAppend(f: seq<Node>, n: Node)
    ensures Events(f + [n]) == Events(f) + NodeEvents(n)
  {
    assert (f + [n])[..|f|] == f;
  }

  lemma ZipAppend(frames: seq<Frame>, current: seq<Node>, n: Node)
    ensures ZipEvents(frames, current + [n]) == ZipEvents(frames, current) + NodeEvents(n)
  {
    EventsAppend(current, n);
  }

  predicate PlainEvent(e: Event) {
    e.Open? || (e.Close? && e.name !in VOID)
  }

  lemma {:induction false} PlainOnly(es: seq<Event>)
    ensures forall k :: 0 <= k < |PlainEvents(es)| ==> PlainEvent(PlainEvents(es)[k])
  {
    if es != [] {
      PlainOnly(es[..|es| - 1]);
    }
  }

  /** A run without an unmatched closing tag spells a partly built tree along its stack. */
  lemma {:induction false} RunBuilds(es: seq<Event>) returns (frames: seq<Frame>, current: seq<Node>)
    requires forall k :: 0 <= k < |es| ==> PlainEvent(es[k])
    requires Parsed(es).errors == 0
    ensures ZipEvents(frames, current) == es && ZipFits(frames, current, Parsed(es).stack)
    ensures |Parsed(es).stack| == |Parsed(es).records|
  {
    if es == [] {
      frames, current := [], [];
    } else {
      var init, e := es[..|es| - 1], es[|es| - 1];
      frames, current := RunBuilds(init);
      assert es == init + [e];
      frames, current := EventBuilds(Parsed(init), e, frames, current);
    }
  }

  lemma EventBuilds(m: Machine, e: Event, frames: seq<Frame>, current: seq<Node>)
    returns (frames': seq<Frame>, current': seq<Node>)
    requires PlainEvent(e) && ZipFits(frames, current, m.stack) && |m.stack| == |m.records|
    requires m.errors == 0 && Handled(m, e).errors == 0
    ensures ZipEvents(frames', current') == ZipEvents(frames, current) + [e]
    ensures ZipFits(frames', current', Handled(m, e).stack)
    ensures |Handled(m, e).stack| == |Handled(m, e).records|
  {
    hide Events, RegionsOf, Enclosing, Strip;
    if e.Open? && e.tag.name in VOID {
      ZipAppend(frames, current, Leaf(e.tag));
      assert NodeFits(Leaf(e.tag)) && NodeEvents(Leaf(e.tag)) == [e];
      frames', current' := frames, current + [Leaf(e.tag)];
    } else if e.Open? {
      OpenZip(frames, current, e.tag);
      frames', current' := frames + [Frame(e.tag, current)], [];
    } else {
      var top := frames[|frames| - 1];
      CloseZip(frames, current);
      ElementFits(top.before, top.tag, current);
      frames', current' := frames[..|frames| - 1], top.before + [Element(top.tag, current)];
    }
  }

  lemma ElementFits(before: seq<Node>, tag: Tag, current: seq<Node>)
    requires ForestFits(before) && ForestFits(current) && tag.name !in VOID
    ensures ForestFits(before + [Element(tag, current)])
  {
    assert NodeFits(Element(tag, current));
  }

  lemma OpenZip(frames: seq<Frame>, current: seq<Node>, tag: Tag)
    ensures ZipEvents(frames + [Frame(tag, current)], []) == ZipEvents(frames, current) + [Open(tag)]
  {
    var more := frames + [Frame(tag, current)];
    assert more[..|frames|] == frames;
    assert ZipEvents(frames, current) + [Open(tag)] + Events([]) == ZipEvents(frames, current) + [Open(tag)];
  }

  lemma CloseZip(frames: seq<Frame>, current: seq<Node>)
    requires frames != []
    ensures var top := frames[|frames| - 1];
            ZipEvents(frames[..|frames| - 1], top.before + [Element(top.tag, current)]) == ZipEvents(frames, current) + [Close(top.tag.name)]
  {
    var top := frames[|frames| - 1];
    ZipAppend(frames[..|frames| - 1], top.before, Element(top.tag, current));
    assert ZipEvents(frames[..|frames| - 1], top.before) + ([Open(top.tag)] + Events(current) + [Close(top.tag.name)])
        == ZipEvents(frames[..|frames| - 1], top.before) + [Open(top.tag)] + Events(current) + [Close(top.tag.name)];
  }

  // ---------------------------------------------------------------- the theorems

  ghost predicate Document(es: seq<Event>, f: seq<Node>) {
    ForestFits(f) && Events(f) == PlainEvents(es)
  }

  /** The parser finds a document balanced exactly when its tags spell a tree. */
  lemma BalancedIsTree(es: seq<Event>)
    ensures Balanced(es) <==> exists f :: Document(es, f)
  {
    RunPlain(START, es);
    if Balanced(es) {
      PlainOnly(es);
      var frames, f := RunBuilds(PlainEvents(es));
      assert Document(es, f);
    }
    if f :| Document(es, f) {
      ForestPasses(START, f, []);
    }
  }

  /**
   The regions computed for an image are the nonempty record markers on it and its
   ancestors, over all its occurrences: with one more, empty region exactly when one of
   those images carries a marker that is only white space.
   */
  lemma RegionsAreTrees(es: seq<Event>, f: seq<Node>, cid: Cid)
    requires Document(es, f)
    ensures RegionsOf(Parsed(es).regions, cid) == Regions(f, [], cid) + (if Blank(f, cid) then {""} else {})
    ensures RegionsOf(Parsed(es).regions, cid) == Regions(f, [], cid) <==> !Blank(f, cid)
  {
    RunPlain(START, es);
    ForestPasses(START, f, []);
    NoEmptyRegion(f, [], cid);
  }

  lemma {:induction false} NoEmptyRegion(f: seq<Node>, path: seq<Tag>, cid: Cid)
    ensures "" !in Regions(f, path, cid)
    decreases f, 1
  {
    if f != [] {
      NoEmptyRegion(f[..|f| - 1], path, cid);
      NoEmptyNodeRegion(f[|f| - 1], path, cid);
    }
  }

  lemma {:induction false} NoEmptyNodeRegion(n: Node, path: seq<Tag>, cid: Cid)
    ensures "" !in NodeRegions(n, path, cid)
    decreases n, 0
  {
    if n.Element? {
      NoEmptyRegion(n.children, path + [n.tag], cid);
    }
  }

  /** A marker of one blank on an image in a marked cell: the computed set has an empty record. */
  lemma BlankMarkerCounts(cid: Cid)
    ensures var cell := Tag("td", "r", None);
            var image := Tag("img", " ", Some(cid));
            RegionsOf(Parsed([Open(cell), Open(image), Close("td")]).regions, cid) == {"r", ""}
  {
    var cell, image := Tag("td", "r", None), Tag("img", " ", Some(cid));
    var es := [Open(cell), Open(image), Close("td")];
    assert StripLeft(" ") == StripLeft(" "[1..]) == "" && StripRight("") == "";
    assert StripLeft("r") == "r" && StripRight("r") == "r";
    assert es[..2][..1] == [Open(cell)] && es[..2] == [Open(cell), Open(image)] && es[..1][..0] == [];
    RunOne(START, Open(cell));
    var m := Handled(START, Open(cell));
    assert m.records == ["r"];
    assert Enclosing(m.records) == {"r"} by {
      assert m.records[0] in Enclosing(m.records);
    }
    assert Parsed(es[..1]) == m;
    assert Parsed(es[..2]) == Handled(m, Open(image));
  }
}
