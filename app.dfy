/** The page shell: which section is "active" for navigation highlighting.

    On every scroll event the shell probes the position `scrollY + 100` against the
    sections in a fixed order and makes the first section whose vertical interval
    `[offsetTop, offsetTop + offsetHeight)` contains the probe the active one. Sections
    whose element is missing from the document are skipped; when nothing contains the
    probe, the previous choice stays. */
module App {

  import opened Wrappers

  /** The section ids, in the order the scroll handler examines them. */
  const SectionIds: seq<string> :=
    ["home", "about", "resume", "skills", "certificates", "projects", "publications", "contact"]

  /** The distance, in pixels, added to the scroll offset before probing. */
  const ProbeOffset: int := 100

  /** The geometry of a section's element: its `offsetTop` and `offsetHeight`. */
  datatype Box = Box(top: int, height: int)

  /** A section id and its element, `None` when the document has no element with that id. */
  datatype Section = Section(id: string, element: Option<Box>)

  /** The half-open interval of a box contains a position. */
  predicate Contains(b: Box, pos: int)
    ensures Contains(b, pos) ==> b.height > 0
    ensures pos == b.top + b.height ==> !Contains(b, pos)
    ensures pos == b.top && b.height > 0 ==> Contains(b, pos)
  {
    b.top <= pos < b.top + b.height
  }

  /** A section is present and its interval contains the position. */
  predicate Matches(s: Section, pos: int)
    ensures s.element.None? ==> !Matches(s, pos)
    ensures Matches(s, pos) ==> s.element.value.height > 0
  {
    s.element.Some? && Contains(s.element.value, pos)
  }

  /** What `document.getElementById` yields for each id, as a sequence of sections. */
  function Layout(ids: seq<string>, dom: map<string, Box>): (r: seq<Section>)
    ensures |r| == |ids|
    ensures forall i :: 0 <= i < |ids| ==> r[i].id == ids[i]
    ensures forall i :: 0 <= i < |ids| ==> (r[i].element.Some? <==> ids[i] in dom)
    ensures forall i :: 0 <= i < |ids| && ids[i] in dom ==> r[i].element.value == dom[ids[i]]
  {
    seq(|ids|, i requires 0 <= i < |ids| =>
      Section(ids[i], if ids[i] in dom then Some(dom[ids[i]]) else None))
  }

  /** The index of the first section that matches the position, if any. */
  function FirstMatch(secs: seq<Section>, pos: int): (r: Option<nat>)
    ensures r.Some? ==> r.value < |secs| && Matches(secs[r.value], pos)
    ensures r.Some? ==> forall j :: 0 <= j < r.value ==> !Matches(secs[j], pos)
    ensures r.None? <==> forall j :: 0 <= j < |secs| ==> !Matches(secs[j], pos)
  {
    if secs == [] then None
    else if Matches(secs[0], pos) then Some(0)
    else match FirstMatch(secs[1..], pos)
      case None => None
      case Some(k) => Some(k + 1)
  }

  /** The active section after probing `pos`, starting from `current`. */
  function Select(secs: seq<Section>, pos: int, current: string): (r: string)
    ensures (forall j :: 0 <= j < |secs| ==> !Matches(secs[j], pos)) ==> r == current
    ensures (exists j :: 0 <= j < |secs| && Matches(secs[j], pos)) ==>
      exists i :: 0 <= i < |secs| && Matches(secs[i], pos) && r == secs[i].id &&
        forall j :: 0 <= j < i ==> !Matches(secs[j], pos)
  {
    match FirstMatch(secs, pos)
    case None => current
    case Some(i) => secs[i].id
  }

  /** The sections whose element exists, in their original order. */
  function Present(secs: seq<Section>): (r: seq<Section>)
    ensures |r| <= |secs|
    ensures forall i :: 0 <= i < |r| ==> r[i].element.Some? && r[i] in secs
  {
    if secs == [] then []
    else if secs[0].element.Some? then [secs[0]] + Present(secs[1..])
    else Present(secs[1..])
  }

  /** A first section that does not match is passed over. */
  lemma SelectSkipsHead(secs: seq<Section>, pos: int, current: string)
    requires secs != [] && !Matches(secs[0], pos)
    ensures Select(secs, pos, current) == Select(secs[1..], pos, current)
  {
    match FirstMatch(secs[1..], pos)
    case None =>
    case Some(k) => assert secs[k + 1] == secs[1..][k];
  }

  /** Missing elements are skipped: dropping them leaves the choice the same. */
  lemma {:induction false} MissingSectionsSkipped(secs: seq<Section>, pos: int, current: string)
    ensures Select(Present(secs), pos, current) == Select(secs, pos, current)
  {
    if secs != [] {
      MissingSectionsSkipped(secs[1..], pos, current);
      if secs[0].element.Some? {
        var p := Present(secs);
        assert p == [secs[0]] + Present(secs[1..]);
        assert p[0] == secs[0] && p[1..] == Present(secs[1..]);
        if !Matches(secs[0], pos) {
          SelectSkipsHead(p, pos, current);
          SelectSkipsHead(secs, pos, current);
        }
      } else {
        SelectSkipsHead(secs, pos, current);
      }
    }
  }

  /** Once some section matches, the sections after the list are never examined. */
  lemma {:induction false} LaterSectionsIgnored(secs: seq<Section>, rest: seq<Section>, pos: int, current: string)
    requires exists j :: 0 <= j < |secs| && Matches(secs[j], pos)
    ensures Select(secs + rest, pos, current) == Select(secs, pos, current)
  {
    var i := FirstMatch(secs, pos).value;
    assert (secs + rest)[i] == secs[i];
    assert forall j :: 0 <= j < i ==> (secs + rest)[j] == secs[j];
  }

  /** The three-section example: intervals [0,100), [100,250), [250,500). */
  lemma ThreeSectionExample(current: string)
    ensures var secs := [Section("a", Some(Box(0, 100))), Section("b", Some(Box(100, 150))),
                         Section("c", Some(Box(250, 250)))];
      && Select(secs, 0 + ProbeOffset, current) == "b"
      && Select(secs, 150 + ProbeOffset, current) == "c"
      && Select(secs, -100 + ProbeOffset, current) == "a"
      && Select(secs, 500 + ProbeOffset, current) == current
  {
    var secs := [Section("a", Some(Box(0, 100))), Section("b", Some(Box(100, 150))),
                 Section("c", Some(Box(250, 250)))];
    assert Matches(secs[2], 250) && !Matches(secs[0], 250) && !Matches(secs[1], 250);
    assert Matches(secs[1], 100) && !Matches(secs[0], 100);
    assert Matches(secs[0], 0);
    assert forall j :: 0 <= j < 3 ==> !Matches(secs[j], 600);
  }

  /** The `activeSection` state of the page shell. */
  class AppState {
    var activeSection: string

    ghost predicate Valid()
      reads this
    {
      activeSection in SectionIds
    }

    /** Before any scroll event the active section is "home". */
    constructor ()
      ensures Valid() && activeSection == "home"
    {
      activeSection := "home";
    }

    /** The scroll handler: `dom` is the document's elements by id. */
    method HandleScroll(scrollY: int, dom: map<string, Box>)
      requires Valid()
      modifies this
      ensures Valid()
      ensures activeSection == Select(Layout(SectionIds, dom), scrollY + ProbeOffset, old(activeSection))
    {
      var sections := SectionIds;
      var scrollPosition := scrollY + ProbeOffset;
      ghost var layout := Layout(sections, dom);
      var i := 0;
      while i < |sections|
        invariant 0 <= i <= |sections|
        invariant activeSection == old(activeSection)
        invariant forall j :: 0 <= j < i ==> !Matches(layout[j], scrollPosition)
      {
        var section := sections[i];
        if section in dom {
          var element := dom[section];
          if scrollPosition >= element.top && scrollPosition < element.top + element.height {
            assert Matches(layout[i], scrollPosition);
            activeSection := section;
            break;
          }
        }
        i := i + 1;
      }
    }
  }
}
