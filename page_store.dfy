/** The page store of the editor (src/stores/page.ts): a top-level
    `ElementStore` of pages with `addPage`, `deletePage` and
    `findPageByName`. The operations are first stated as functions on store
    values; the class `PageStore` updates its `list` and `detail` fields in
    place and is proved against those functions. */
module PageStore {
  import opened Elements

  // ---------------------------------------------------------------------------
  // Lower-casing (ASCII letters only)

  predicate IsUpper(c: char)
  {
    'A' <= c <= 'Z'
  }

  function LowerChar(c: char): (d: char)
    ensures !IsUpper(d)
    ensures !IsUpper(c) ==> d == c
    ensures IsUpper(c) ==> d as int == c as int + 32
  {
    if IsUpper(c) then (c as int + 32) as char else c
  }

  /** `s.toLowerCase()` for the ASCII letters 'A'..'Z'. */
  function ToLower(s: string): (r: string)
    ensures |r| == |s|
    ensures forall i | 0 <= i < |r| :: !IsUpper(r[i])
    ensures forall i | 0 <= i < |s| :: r[i] == LowerChar(s[i])
    ensures forall i | 0 <= i < |s| && !IsUpper(s[i]) :: r[i] == s[i]
  {
    if s == [] then [] else [LowerChar(s[0])] + ToLower(s[1..])
  }

  /** A string with no upper-case letter is its own lower-case form. */
  lemma ToLowerFixed(s: string)
    requires forall i | 0 <= i < |s| :: !IsUpper(s[i])
    ensures ToLower(s) == s
  {
  }

  // ---------------------------------------------------------------------------
  // `list.filter(pageId => pageId !== id)`

  function Without(ids: seq<string>, id: string): (r: seq<string>)
    ensures multiset(r) == multiset(ids)[id := 0]
    ensures forall x :: x in r <==> x in ids && x != id
  {
    if ids == [] then []
    else
      assert ids == [ids[0]] + ids[1..];
      (if ids[0] == id then [] else [ids[0]]) + Without(ids[1..], id)
  }

  /** Filtering out an id that does not occur changes nothing. */
  lemma {:induction false} WithoutAbsent(ids: seq<string>, id: string)
    requires id !in ids
    ensures Without(ids, id) == ids
  {
    if ids != [] {
      WithoutAbsent(ids[1..], id);
    }
  }

  /** Filtering twice is filtering once. */
  lemma WithoutIdempotent(ids: seq<string>, id: string)
    ensures Without(Without(ids, id), id) == Without(ids, id)
  {
    WithoutAbsent(Without(ids, id), id);
  }

  /** In a list without duplicates, filtering out the id at index `i` is
      cutting out that one position: every other id keeps its relative order. */
  lemma {:induction false} WithoutSplice(ids: seq<string>, id: string, i: nat)
    requires NoDuplicates(ids)
    requires i < |ids| && ids[i] == id
    ensures Without(ids, id) == ids[..i] + ids[i + 1..]
  {
    TailNoDuplicates(ids);
    var tail := ids[1..];
    if i == 0 {
      WithoutAbsent(tail, id);
    } else {
      WithoutSplice(tail, id, i - 1);
      calc {
        Without(ids, id);
        [ids[0]] + Without(tail, id);
        [ids[0]] + (tail[..i - 1] + tail[i..]);
        { assert [ids[0]] + tail[..i - 1] == ids[..i]; assert tail[i..] == ids[i + 1..]; }
        ids[..i] + ids[i + 1..];
      }
    }
  }

  /** Filtering keeps a duplicate-free list duplicate-free. */
  lemma {:induction false} WithoutNoDuplicates(ids: seq<string>, id: string)
    requires NoDuplicates(ids)
    ensures NoDuplicates(Without(ids, id))
  {
    if ids != [] {
      TailNoDuplicates(ids);
      WithoutNoDuplicates(ids[1..], id);
      var rest := Without(ids[1..], id);
      if ids[0] != id {
        var r := [ids[0]] + rest;
        assert ids[0] !in rest;
        forall a, b | 0 <= a < b < |r| ensures r[a] != r[b] {
          assert r[b] == rest[b - 1];
          if a == 0 {
            assert rest[b - 1] in rest;
          } else {
            assert r[a] == rest[a - 1];
          }
        }
      }
    }
  }

  // ---------------------------------------------------------------------------
  // The store as a value

  /** The page `addPage` creates for the id `uuidv4()` hands it: a root page
      filed under its own id, with no children. */
  function NewPage(id: string): (p: Element)
    ensures p.Page? && p.id == id && p.parentId == None
    ensures p.children.list == [] && p.children.detail == map[]
    ensures WellFormed(p)
  {
    Page(id, "page", None, 1980.0, 1020.0, 0.0, 0.0, 1.0, None, ElementStore([], map[]))
  }

  /** The top-level table: consistent, holding only well-formed root pages. */
  predicate TopLevel(s: ElementStore)
  {
    && IndexConsistent(s)
    && forall k | k in s.detail ::
         s.detail[k].Page? && s.detail[k].parentId == None && WellFormed(s.detail[k])
  }

  /** The store after `addPage` with the id `id`. */
  function AddPageTo(s: ElementStore, id: string): (r: ElementStore)
    ensures r.list == s.list + [id]
    ensures id in r.detail && r.detail[id].Page? && r.detail[id].id == id
    ensures r.detail.Keys == s.detail.Keys + {id}
    ensures forall k | k in s.detail && k != id :: r.detail[k] == s.detail[k]
  {
    Append(s, NewPage(id))
  }

  /** The store after `deletePage(id)`. */
  function DeletePageFrom(s: ElementStore, id: string): (r: ElementStore)
    ensures id !in r.list && id !in r.detail
    ensures forall k :: k in r.list <==> k in s.list && k != id
    ensures r.detail.Keys == s.detail.Keys - {id}
    ensures forall k | k in r.detail :: r.detail[k] == s.detail[k]
  {
    ElementStore(Without(s.list, id), s.detail - {id})
  }

  /** `Object.values(detail)`. Object keys that are not array indices are
      enumerated in insertion order, which on a consistent store whose ids
      are not array indices (as `uuidv4()` ids never are) is `list`. */
  function Values(s: ElementStore): (r: seq<Element>)
    requires forall k | k in s.list :: k in s.detail
    ensures |r| == |s.list|
    ensures IndexConsistent(s) ==> forall e :: e in r <==> e in s.detail.Values
  {
    var r := seq(|s.list|, i requires 0 <= i < |s.list| => s.detail[s.list[i]]);
    forall e | e in s.detail.Values && IndexConsistent(s) ensures e in r {
      var k :| k in s.detail && s.detail[k] == e;
      var i :| 0 <= i < |s.list| && s.list[i] == k;
      assert r[i] == e;
    }
    r
  }

  /** `pages.filter(page => page.name.toLowerCase() === name)` */
  function NameFilter(pages: seq<Element>, name: string): (r: seq<Element>)
    ensures forall e :: e in r <==> e in pages && ToLower(e.name) == name
  {
    if pages == [] then []
    else
      (if ToLower(pages[0].name) == name then [pages[0]] else []) + NameFilter(pages[1..], name)
  }

  /** The result of `findPageByName(name)`. */
  function PagesNamed(s: ElementStore, name: string): (r: seq<Element>)
    requires IndexConsistent(s)
    ensures forall e :: e in r <==> e in s.detail.Values && ToLower(e.name) == name
  {
    NameFilter(Values(s), name)
  }

  // ---------------------------------------------------------------------------
  // Properties of the operations

  /** `addPage` files a default page under the new id at the end of the order. */
  lemma AddPageDefaults(s: ElementStore, id: string)
    ensures AddPageTo(s, id).list[|s.list|] == id
    ensures AddPageTo(s, id).detail[id] == Page(id, "page", None, 1980.0, 1020.0, 0.0, 0.0, 1.0, None, ElementStore([], map[]))
  {
  }

  /** Given a fresh id, `addPage` keeps the top-level invariant. */
  lemma AddPageKeepsTopLevel(s: ElementStore, id: string)
    requires TopLevel(s)
    requires id !in s.detail
    ensures TopLevel(AddPageTo(s, id))
  {
  }

  /** `deletePage` keeps the top-level invariant. */
  lemma DeletePageKeepsTopLevel(s: ElementStore, id: string)
    requires TopLevel(s)
    ensures TopLevel(DeletePageFrom(s, id))
  {
    WithoutNoDuplicates(s.list, id);
  }

  /** `deletePage` removes exactly the position the id held in `list`; the
      remaining ids keep their order. */
  lemma DeletePageKeepsOrder(s: ElementStore, id: string, i: nat)
    requires IndexConsistent(s)
    requires i < |s.list| && s.list[i] == id
    ensures DeletePageFrom(s, id).list == s.list[..i] + s.list[i + 1..]
  {
    WithoutSplice(s.list, id, i);
  }

  /** `deletePage` of an id that is not a top-level page is a no-op; it does
      not look into nested children. */
  lemma DeletePageAbsent(s: ElementStore, id: string)
    requires IndexConsistent(s)
    requires id !in s.list
    ensures DeletePageFrom(s, id) == s
  {
    WithoutAbsent(s.list, id);
    assert s.detail - {id} == s.detail;
  }

  /** Deleting twice is deleting once. */
  lemma DeletePageIdempotent(s: ElementStore, id: string)
    ensures DeletePageFrom(DeletePageFrom(s, id), id) == DeletePageFrom(s, id)
  {
    WithoutIdempotent(s.list, id);
    var d := DeletePageFrom(s, id).detail;
    assert d - {id} == d;
  }

  /** Deleting the page just added with a fresh id restores the store. */
  lemma AddThenDeletePage(s: ElementStore, id: string)
    requires IndexConsistent(s)
    requires id !in s.detail
    ensures DeletePageFrom(AddPageTo(s, id), id) == s
  {
    var a := AddPageTo(s, id);
    AppendKeepsIndex(s, NewPage(id));
    WithoutSplice(a.list, id, |s.list|);
    assert a.list[..|s.list|] == s.list;
    assert a.detail - {id} == s.detail;
  }

  lemma {:induction false} NameFilterConcat(a: seq<Element>, b: seq<Element>, name: string)
    ensures NameFilter(a + b, name) == NameFilter(a, name) + NameFilter(b, name)
  {
    if a != [] {
      var head := if ToLower(a[0].name) == name then [a[0]] else [];
      NameFilterConcat(a[1..], b, name);
      calc {
        NameFilter(a + b, name);
        { assert (a + b)[0] == a[0]; assert (a + b)[1..] == a[1..] + b; }
        head + NameFilter(a[1..] + b, name);
        head + (NameFilter(a[1..], name) + NameFilter(b, name));
        (head + NameFilter(a[1..], name)) + NameFilter(b, name);
        NameFilter(a, name) + NameFilter(b, name);
      }
    } else {
      assert a + b == b;
    }
  }

  /** Appending under a fresh id appends its element to `Object.values`. */
  lemma ValuesAppend(s: ElementStore, e: Element)
    requires IndexConsistent(s)
    requires e.id !in s.detail
    ensures Values(Append(s, e)) == Values(s) + [e]
  {
  }

  /** After `addPage`, `findPageByName` returns what it returned before, followed
      by the new page when the query is "page". */
  lemma FindAfterAddPage(s: ElementStore, id: string, name: string)
    requires IndexConsistent(s)
    requires id !in s.detail
    ensures IndexConsistent(AddPageTo(s, id))
    ensures PagesNamed(AddPageTo(s, id), name)
         == PagesNamed(s, name) + (if name == "page" then [NewPage(id)] else [])
  {
    var p := NewPage(id);
    AppendKeepsIndex(s, p);
    ValuesAppend(s, p);
    NameFilterConcat(Values(s), [p], name);
    ToLowerFixed(p.name);
    assert NameFilter([p], name) == if name == "page" then [p] else [];
  }

  lemma FirstIsMember(r: seq<Element>)
    ensures r != [] ==> r[0] in r
  {
  }

  /** A query with an upper-case letter finds nothing, because page names are
      lower-cased before the comparison and the query is not. */
  lemma UpperCaseQueryFindsNothing(s: ElementStore, name: string, i: nat)
    requires IndexConsistent(s)
    requires i < |name| && IsUpper(name[i])
    ensures PagesNamed(s, name) == []
  {
    FirstIsMember(PagesNamed(s, name));
  }

  /** After `deletePage(id)`, the query finds what it found before except the
      deleted page. */
  lemma FindAfterDeletePage(s: ElementStore, id: string, name: string)
    requires IndexConsistent(s)
    ensures IndexConsistent(DeletePageFrom(s, id))
    ensures forall e :: e in PagesNamed(DeletePageFrom(s, id), name)
                    <==> e in PagesNamed(s, name) && e.id != id
  {
    var d := DeletePageFrom(s, id);
    WithoutNoDuplicates(s.list, id);
    forall e ensures e in d.detail.Values <==> e in s.detail.Values && e.id != id {
      if e in s.detail.Values && e.id != id {
        var k :| k in s.detail && s.detail[k] == e;
        assert d.detail[k] == e;
      }
    }
  }

  // ---------------------------------------------------------------------------
  // The seed state

  const PageOneId := "1d5c2a17-ebd8-4075-8c94-8081c668fc20"
  const PageTwoId := "6d975107-3ffb-422f-8b2d-83a95361738d"
  const ShapeOneId := "416ce213-d8ac-4b71-9269-48b80729d028"
  const ShapeTwoId := "e7a7666e-49a7-4212-9941-4398a7c16a2c"
  const ShapeThreeId := "53be25bf-eb5c-4e36-9364-c0271b921a4b"

  const EmptyStore := ElementStore([], map[])

  function ShapeOne(): Element
  {
    Shape(ShapeOneId, "shape", "object1", Some(PageOneId), 100.0, 150.0, 100.0, 200.0,
          DesignProps(Some("#bbb"), None, None), EmptyStore)
  }

  function ShapeTwo(): Element
  {
    Shape(ShapeTwoId, "shape", "object1", Some(PageOneId), 100.0, 150.0, 100.0, 200.0,
          DesignProps(None, Some("#bbb"), Some(2.0)), EmptyStore)
  }

  function ShapeThree(): Element
  {
    Shape(ShapeThreeId, "shape", "testObj1", Some(PageTwoId), 100.0, 150.0, 600.0, 400.0,
          DesignProps(Some("#bbb"), None, None), EmptyStore)
  }

  function PageOne(): Element
  {
    Page(PageOneId, "test1", None, 800.0, 600.0, 0.0, 0.0, 1.0, None,
         ElementStore([ShapeOneId, ShapeTwoId], map[ShapeOneId := ShapeOne(), ShapeTwoId := ShapeTwo()]))
  }

  function PageTwo(): Element
  {
    Page(PageTwoId, "test2", None, 1200.0, 860.0, 50.0, 120.0, 1.5, None,
         ElementStore([ShapeThreeId], map[ShapeThreeId := ShapeThree()]))
  }

  /** The initial value of the store: two pages, the first holding two shapes
      and the second one. */
  function Seed(): ElementStore
  {
    ElementStore([PageOneId, PageTwoId], map[PageOneId := PageOne(), PageTwoId := PageTwo()])
  }

  lemma SeedPageOneWellFormed()
    ensures WellFormed(PageOne())
  {
  }

  lemma SeedPageTwoWellFormed()
    ensures WellFormed(PageTwo())
  {
  }

  /** The seed state satisfies the top-level invariant. */
  lemma SeedTopLevel()
    ensures TopLevel(Seed())
  {
    assert PageOneId[0] != PageTwoId[0];
    SeedPageOneWellFormed();
    SeedPageTwoWellFormed();
  }

  // ---------------------------------------------------------------------------
  // The store object

  class PageStore {
    var list: seq<string>
    var detail: map<string, Element>

    function Snapshot(): ElementStore
      reads this
    {
      ElementStore(list, detail)
    }

    ghost predicate Valid()
      reads this
    {
      TopLevel(Snapshot())
    }

    /** The store as the editor starts it. */
    constructor ()
      ensures Valid() && Snapshot() == Seed()
    {
      list := Seed().list;
      detail := Seed().detail;
      SeedTopLevel();
    }

    /** `addPage()`, with `id` standing for the fresh `uuidv4()`. */
    method AddPage(id: string)
      requires Valid()
      requires id !in list && id !in detail
      modifies this
      ensures Valid()
      ensures Snapshot() == AddPageTo(old(Snapshot()), id)
      ensures list == old(list) + [id]
      ensures detail == old(detail)[id := NewPage(id)]
    {
      var page := NewPage(id);
      list := list + [id];
      detail := detail[id := page];
      AddPageKeepsTopLevel(old(Snapshot()), id);
    }

    /** `deletePage(id)`. */
    method DeletePage(id: string)
      requires Valid()
      modifies this
      ensures Valid()
      ensures Snapshot() == DeletePageFrom(old(Snapshot()), id)
      ensures id !in list && id !in detail
      ensures forall k | k in detail :: detail[k] == old(detail)[k]
    {
      list := Without(list, id);
      detail := detail - {id};
      DeletePageKeepsTopLevel(old(Snapshot()), id);
    }

    /** `findPageByName(name)`: reads the store and changes nothing. */
    function FindPageByName(name: string): (pages: seq<Element>)
      reads this
      requires Valid()
      ensures forall e :: e in pages <==> e in detail.Values && ToLower(e.name) == name
    {
      PagesNamed(Snapshot(), name)
    }
  }
}
