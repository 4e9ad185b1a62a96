/** Laying out a case packet, and publishing the packet and its manifest. */
module CasePacket {
  import opened Text
  import opened Sorting

  // ----- the layout -----

  datatype Item = Item(archivePath: string, sourcePath: string, role: string)

  /** strings.Compare(a, b) < 0; the order of UTF-8 bytes is the order of code points. */
  predicate Before(a: string, b: string) {
    if b == "" then false
    else if a == "" then true
    else a[0] < b[0] || (a[0] == b[0] && Before(a[1..], b[1..]))
  }

  lemma {:induction false} BeforeIsStrict(a: string)
    ensures !Before(a, a)
  {
    if a != "" {
      BeforeIsStrict(a[1..]);
    }
  }

  lemma {:induction false} BeforeIsTransitive(a: string, b: string, c: string)
    requires Before(a, b) && Before(b, c)
    ensures Before(a, c)
  {
    if a != "" && a[0] == b[0] == c[0] {
      BeforeIsTransitive(a[1..], b[1..], c[1..]);
    }
  }

  lemma {:induction false} BeforeIsTotal(a: string, b: string)
    ensures Before(a, b) || a == b || Before(b, a)
  {
    if a != "" && b != "" && a[0] == b[0] {
      BeforeIsTotal(a[1..], b[1..]);
      assert a == [a[0]] + a[1..] && b == [b[0]] + b[1..];
    }
  }

  const BY_PATH: Order<Item> := (a: Item, b: Item) => Before(a.archivePath, b.archivePath)

  ghost predicate Increasing(items: seq<Item>) {
    Ascending(items, BY_PATH)
  }

  lemma ByPathIsTransitive()
    ensures Transitive(BY_PATH)
  {
    forall a, b, c | BY_PATH(a, b) && BY_PATH(b, c) ensures BY_PATH(a, c) {
      BeforeIsTransitive(a.archivePath, b.archivePath, c.archivePath);
    }
  }

  /** Where a linked file goes in the archive; none when it is not below the complaint's directory. */
  type Place = string -> Option<string>

  /** Every link has a place, and no two different files, the complaint included, have the same one. */
  ghost predicate Consistent(complaint: Item, links: seq<string>, place: Place) {
    && (forall l :: l in links ==> place(l).Some?)
    && (forall l :: l in links && place(l) == Some(complaint.archivePath) ==> l == complaint.sourcePath)
    && (forall l, m :: l in links && m in links && place(l) == place(m) ==> l == m)
  }

  /** What belongs into the packet. */
  ghost predicate Belongs(item: Item, complaint: Item, links: seq<string>, place: Place) {
    || item == complaint
    || (&& item.sourcePath in links && place(item.sourcePath) == Some(item.archivePath)
        && item.archivePath != complaint.archivePath && item.role == "linked_file")
  }

  ghost predicate Layout(items: seq<Item>, complaint: Item, links: seq<string>, place: Place) {
    && Increasing(items)
    && forall item :: item in items <==> Belongs(item, complaint, links, place)
  }

  /** Items with the same members and strictly increasing paths are the same list. */
  lemma {:induction false} IncreasingUnique(a: seq<Item>, b: seq<Item>)
    requires Increasing(a) && Increasing(b) && forall item :: item in a <==> item in b
    ensures a == b
    decreases |a|
  {
    if a == [] {
      FirstIsMember(b);
    } else {
      assert a[0] in b;
      SameFirst(a, b);
      assert a == [a[0]] + a[1..] && b == [b[0]] + b[1..];
      forall item ensures item in a[1..] <==> item in b[1..] {
        BeforeIsStrict(a[0].archivePath);
        assert item in a[1..] ==> item in a && item != a[0];
        assert item in b[1..] ==> item in b && item != b[0];
      }
      IncreasingUnique(a[1..], b[1..]);
    }
  }

  lemma FirstIsMember(items: seq<Item>)
    ensures items != [] ==> items[0] in items
  {
  }

  lemma SameFirst(a: seq<Item>, b: seq<Item>)
    requires a != [] && b != [] && Increasing(a) && Increasing(b) && a[0] in b && b[0] in a
    ensures a[0] == b[0]
  {
    var i :| 0 <= i < |b| && b[i] == a[0];
    var j :| 0 <= j < |a| && a[j] == b[0];
    if i > 0 && j > 0 {
      BeforeIsTransitive(a[0].archivePath, b[0].archivePath, a[0].archivePath);
      BeforeIsStrict(a[0].archivePath);
    }
  }

  /** The layout is one and the same whatever the order and the number of times the complaint links its files. */
  lemma LayoutIgnoresOrder(a: seq<Item>, b: seq<Item>, complaint: Item, p: seq<string>, q: seq<string>, place: Place)
    requires forall l :: l in p <==> l in q
    ensures Consistent(complaint, p, place) <==> Consistent(complaint, q, place)
    ensures Layout(a, complaint, p, place) && Layout(b, complaint, q, place) ==> a == b
  {
    if Layout(a, complaint, p, place) && Layout(b, complaint, q, place) {
      forall item ensures item in a <==> item in b {
        assert Belongs(item, complaint, p, place) <==> Belongs(item, complaint, q, place);
      }
      IncreasingUnique(a, b);
    }
  }

  // ----- building it -----

  ghost predicate PathsDiffer(items: seq<Item>) {
    forall i, j :: 0 <= i < j < |items| ==> items[i].archivePath != items[j].archivePath
  }

  /** slices.SortFunc by archive path. */
  method Sorted(items: seq<Item>) returns (sorted: seq<Item>)
    requires PathsDiffer(items)
    ensures Increasing(sorted) && forall item :: item in sorted <==> item in items
  {
    sorted := [];
    ByPathIsTransitive();
    for i := 0 to |items|
      invariant Increasing(sorted) && forall item :: item in sorted <==> item in items[..i]
    {
      forall k | 0 <= k < |sorted| ensures BY_PATH(sorted[k], items[i]) || BY_PATH(items[i], sorted[k]) {
        assert sorted[k] in items[..i];
        BeforeIsTotal(sorted[k].archivePath, items[i].archivePath);
      }
      sorted := Insert(sorted, items[i], BY_PATH);
      assert items[..i + 1] == items[..i] + [items[i]];
    }
    assert items[..|items|] == items;
  }

  /** The items so far, with the archive paths they have taken. */
  ghost predicate Built(
    items: seq<Item>, seen: map<string, string>, complaint: Item, links: seq<string>, place: Place)
  {
    && PathsDiffer(items) && Consistent(complaint, links, place)
    && (forall item :: item in items <==> Belongs(item, complaint, links, place))
    && (forall path :: path in seen <==>
          path == complaint.archivePath || exists l :: l in links && place(l) == Some(path))
    && (forall l :: l in links ==> seen[place(l).value] == l)
    && seen[complaint.archivePath] == complaint.sourcePath
  }

  lemma LinkAgain(
    items: seq<Item>, seen: map<string, string>, complaint: Item, links: seq<string>, place: Place, link: string)
    requires Built(items, seen, complaint, links, place)
    requires place(link).Some? && place(link).value in seen && seen[place(link).value] == link
    ensures Built(items, seen, complaint, links + [link], place)
  {
    var path := place(link).value;
    if path != complaint.archivePath {
      var l :| l in links && place(l) == Some(path);
      assert l == link;
    }
    forall item ensures Belongs(item, complaint, links + [link], place) <==> Belongs(item, complaint, links, place) {
    }
  }

  lemma LinkNew(
    items: seq<Item>, seen: map<string, string>, complaint: Item, links: seq<string>, place: Place, link: string)
    requires Built(items, seen, complaint, links, place)
    requires place(link).Some? && place(link).value !in seen
    ensures
      Built(items + [Item(place(link).value, link, "linked_file")], seen[place(link).value := link],
            complaint, links + [link], place)
  {
    var path := place(link).value;
    var item := Item(path, link, "linked_file");
    forall other | other in items ensures other.archivePath != path {
      assert Belongs(other, complaint, links, place);
    }
    forall other ensures other in items + [item] <==> Belongs(other, complaint, links + [link], place) {
      assert other in items <==> Belongs(other, complaint, links, place);
    }
  }

  lemma LinkConflicts(
    seen: map<string, string>, complaint: Item, links: seq<string>, place: Place, link: string, all: seq<string>)
    requires forall l :: l in links ==> l in all
    requires link in all && place(link).Some? && place(link).value in seen && seen[place(link).value] != link
    requires forall path :: path in seen <==>
      path == complaint.archivePath || exists l :: l in links && place(l) == Some(path)
    requires forall l :: l in links ==> place(l).Some? && place(l).value in seen && seen[place(l).value] == l
    requires complaint.archivePath in seen && seen[complaint.archivePath] == complaint.sourcePath
    ensures !Consistent(complaint, all, place)
  {
    var path := place(link).value;
    if path != complaint.archivePath {
      var l :| l in links && place(l) == Some(path);
      assert l in all && place(l) == place(link) && l != link;
    }
  }

  /**
   * Builds the entries of a packet.  It fails exactly on a link without a place and on two different files
   * with one place; otherwise the result is the layout.
   */
  method BuildEntries(complaint: Item, links: seq<string>, place: Place) returns (entries: Option<seq<Item>>)
    requires complaint.sourcePath != "" && place("").None?
    ensures entries.Some? <==> Consistent(complaint, links, place)
    ensures entries.Some? ==> Layout(entries.value, complaint, links, place)
  {
    var items := [complaint];
    var seen := map[complaint.archivePath := complaint.sourcePath];
    for i := 0 to |links|
      invariant Built(items, seen, complaint, links[..i], place)
    {
      var link := links[i];
      assert links[..i + 1] == links[..i] + [link];
      if place(link).None? {
        return None;
      }
      var path := place(link).value;
      var prior := if path in seen then seen[path] else "";
      if prior != "" {
        if prior != link {
          LinkConflicts(seen, complaint, links[..i], place, link, links);
          return None;
        }
        LinkAgain(items, seen, complaint, links[..i], place, link);
      } else {
        LinkNew(items, seen, complaint, links[..i], place, link);
        seen := seen[path := link];
        items := items + [Item(path, link, "linked_file")];
      }
    }
    assert links[..|links|] == links;
    var sorted := Sorted(items);
    entries := Some(sorted);
  }
}
