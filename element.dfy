/** The element model of the design editor: pages, folders and shapes, each of
    which owns a nested `ElementStore` of children (src/types/Element.ts). */
module Elements {

  datatype Option<+T> = None | Some(value: T)

  /** The optional style fields of a shape's `properties`. */
  datatype DesignProps = DesignProps(
    backgroundColor: Option<string>,
    lineColor: Option<string>,
    lineThickness: Option<real>)

  /** The `type` tag of an element, as far as the interfaces narrow it. */
  datatype Kind = FolderKind | PageKind | ShapeKind

  /** One level of the tree: `list` is the display order of the ids, `detail`
      maps each id to its element. */
  datatype ElementStore = ElementStore(list: seq<string>, detail: map<string, Element>)

  /** Geometry and scale are opaque stored numbers; `isHome` is optional on a
      page, so it is `None` when the field is absent. A shape's `type` is a
      plain string in the interface, kept as `typeName`. */
  datatype Element =
    | Folder(id: string, name: string, parentId: Option<string>, children: ElementStore)
    | Page(id: string, name: string, parentId: Option<string>,
           width: real, height: real, x: real, y: real,
           scale: real, isHome: Option<bool>, children: ElementStore)
    | Shape(id: string, typeName: string, name: string, parentId: Option<string>,
            width: real, height: real, x: real, y: real,
            properties: DesignProps, children: ElementStore)

  function KindOf(e: Element): Kind
  {
    match e
    case Folder(_, _, _, _) => FolderKind
    case Page(_, _, _, _, _, _, _, _, _, _) => PageKind
    case Shape(_, _, _, _, _, _, _, _, _, _) => ShapeKind
  }

  /** `DirectoryTypes`, `GraphicTypes` and `ElementTypes` of the interfaces. */
  const DirectoryTypes: set<Kind> := {FolderKind, PageKind}
  const GraphicTypes: set<Kind> := {ShapeKind}
  const ElementTypes: set<Kind> := DirectoryTypes + GraphicTypes

  /** The kinds the `children` store of an element of kind `k` may hold:
      a folder holds directories, a page holds anything, a shape holds shapes. */
  function ChildKinds(k: Kind): set<Kind>
  {
    match k
    case FolderKind => DirectoryTypes
    case PageKind => ElementTypes
    case ShapeKind => GraphicTypes
  }

  predicate NoDuplicates(ids: seq<string>)
  {
    forall i, j | 0 <= i < j < |ids| :: ids[i] != ids[j]
  }

  /** The table invariant of one level: `list` and the keys of `detail` match
      one to one, and every element is filed under its own id. */
  predicate IndexConsistent(s: ElementStore)
  {
    && NoDuplicates(s.list)
    && (forall k | k in s.list :: k in s.detail)
    && (forall k | k in s.detail :: k in s.list)
    && (forall k | k in s.detail :: s.detail[k].id == k)
  }

  /** The tail of a duplicate-free list is duplicate-free and lacks the head. */
  lemma TailNoDuplicates(ids: seq<string>)
    requires NoDuplicates(ids) && ids != []
    ensures NoDuplicates(ids[1..]) && ids[0] !in ids[1..]
  {
  }

  /** A duplicate-free list has as many distinct ids as positions. */
  lemma {:induction false} DistinctIdsCount(ids: seq<string>)
    requires NoDuplicates(ids)
    ensures |(set k | k in ids)| == |ids|
  {
    if ids != [] {
      TailNoDuplicates(ids);
      DistinctIdsCount(ids[1..]);
      assert (set k | k in ids) == {ids[0]} + (set k | k in ids[1..]);
    }
  }

  /** On a consistent store `list` and `detail` have the same size: every
      listed id has exactly one entry and every entry exactly one position. */
  lemma IndexSize(s: ElementStore)
    requires IndexConsistent(s)
    ensures |s.list| == |s.detail|
  {
    DistinctIdsCount(s.list);
    assert s.detail.Keys == set k | k in s.list;
  }

  /** Every element of the store has one of the given kinds (the type
      argument of `ElementStore<T>`). */
  predicate Holds(s: ElementStore, kinds: set<Kind>)
  {
    forall k | k in s.detail :: KindOf(s.detail[k]) in kinds
  }

  /** An element whose nested stores are consistent at every depth, hold only
      the kinds its interface allows, and whose children name it as parent. */
  predicate WellFormed(e: Element)
    decreases e
  {
    && IndexConsistent(e.children)
    && Holds(e.children, ChildKinds(KindOf(e)))
    && (forall k | k in e.children.detail ::
          e.children.detail[k].parentId == Some(e.id) && WellFormed(e.children.detail[k]))
  }

  /** Every element of the subtree rooted at `e` is a shape. */
  predicate OnlyShapes(e: Element)
    decreases e
  {
    e.Shape? && forall k | k in e.children.detail :: OnlyShapes(e.children.detail[k])
  }

  /** Appending an element to a store: `list.push(id)` then `detail[id] = e`. */
  function Append(s: ElementStore, e: Element): (r: ElementStore)
    ensures r.list == s.list + [e.id]
    ensures e.id in r.detail && r.detail[e.id] == e
    ensures r.detail.Keys == s.detail.Keys + {e.id}
    ensures forall k | k in s.detail && k != e.id :: r.detail[k] == s.detail[k]
  {
    ElementStore(s.list + [e.id], s.detail[e.id := e])
  }

  /** The element `e` with `c` appended to its children. */
  function WithChild(e: Element, c: Element): (r: Element)
    ensures KindOf(r) == KindOf(e) && r.id == e.id
    ensures r.children == Append(e.children, c)
  {
    match e
    case Folder(id, name, parentId, children) =>
      Folder(id, name, parentId, Append(children, c))
    case Page(id, name, parentId, width, height, x, y, scale, isHome, children) =>
      Page(id, name, parentId, width, height, x, y, scale, isHome, Append(children, c))
    case Shape(id, typeName, name, parentId, width, height, x, y, properties, children) =>
      Shape(id, typeName, name, parentId, width, height, x, y, properties, Append(children, c))
  }

  /** Appending an element under a fresh id keeps the table invariant. */
  lemma AppendKeepsIndex(s: ElementStore, e: Element)
    requires IndexConsistent(s)
    requires e.id !in s.detail
    ensures IndexConsistent(Append(s, e))
  {
  }

  /** Appending a well-formed, fresh child that names `e` as its parent keeps
      `e` well formed exactly when the child's kind is one that `e`'s kind may
      hold: any kind under a page, no shape under a folder, only shapes under a
      shape. */
  lemma AppendChildWellFormed(e: Element, c: Element)
    requires WellFormed(e) && WellFormed(c)
    requires c.id !in e.children.detail && c.parentId == Some(e.id)
    ensures WellFormed(WithChild(e, c)) <==> KindOf(c) in ChildKinds(KindOf(e))
  {
  }

  /** Shapes hold only shapes, so the whole subtree of a well-formed shape is
      made of shapes. */
  lemma {:induction false} ShapeSubtreeOnlyShapes(e: Element)
    requires WellFormed(e) && e.Shape?
    ensures OnlyShapes(e)
  {
    forall k | k in e.children.detail ensures OnlyShapes(e.children.detail[k]) {
      var c := e.children.detail[k];
      assert KindOf(c) in GraphicTypes;
      ShapeSubtreeOnlyShapes(c);
    }
  }

  /** A folder's children are folders or pages, never shapes. */
  lemma FolderHoldsDirectories(e: Element)
    requires WellFormed(e) && e.Folder?
    ensures forall k | k in e.children.detail :: e.children.detail[k].Folder? || e.children.detail[k].Page?
  {
  }
}
