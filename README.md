# Page store of the canvas editor, in Dafny

This project models the document store of a design editor. The store is one
`ElementStore`: an ordered id list `list`, which gives display order, and a
`detail` table from id to element. Every element is a page, a folder or a
shape, and each one owns a nested `ElementStore` of children. Three
operations change or read the top-level table:

- `addPage` appends a default page under a fresh id.
- `deletePage` removes an id from the list and the table.
- `findPageByName` returns the top-level pages whose lower-cased name equals
  the query.

Two modules follow the two source files:

- `element.dfy`, module `Elements` (src/types/Element.ts). It defines the
  `Element` and `ElementStore` datatypes and the `DesignProps` style record.
  It also defines the table invariant `IndexConsistent` and the nesting rules
  as `WellFormed`. A folder holds folders and pages. A page holds anything. A
  shape holds only shapes.
- `page_store.dfy`, module `PageStore` (src/stores/page.ts). It states each
  operation as a function on store values (`AddPageTo`, `DeletePageFrom`,
  `PagesNamed`) and proves lemmas about those functions. The class
  `PageStore` keeps `list` and `detail` as fields, as the reactive store
  does. Its methods update those fields in place, and each method's
  postcondition ties the new state to the matching function. The
  constructor builds the seed state of the store, with two pages and three
  shapes. `SeedTopLevel` proves that this state satisfies the invariant.

The class invariant `Valid()` is `TopLevel`. It requires that the top-level
ids and `detail` keys match one to one with no duplicates. Each element must
be filed under its own id. Each top-level element must be a well-formed page
whose `parentId` is null.

A reader might expect a document store like this to behave differently in a
few places. The model follows what the code does:

- `findPageByName` compares the lower-cased name for equality with the query.
  It is not a case-insensitive substring match, and it looks at top-level
  pages only, not at nested children.
- `deletePage` has no home-page protection. It removes any top-level id,
  including a page whose `isHome` is set.
- `parentId` is written as null even though the interface types it as
  `string`, so it is `Option<string>` here.

The nesting rules are stated by `AppendChildWellFormed`. Its helper
`WithChild` returns an element with one more child appended to its
`children`. No source function does this; it exists only so that the lemma
can say which children an element may take.

## Model

| member | source | states |
|---|---|---|
| Elements.IndexConsistent | src/types/Element.ts:18-21 | the table invariant of one level: `list` has no duplicates, its ids are exactly the keys of `detail`, and every element is filed under its own `id` |
| Elements.IndexSize | src/types/Element.ts:18-21 | on a consistent store, `list` and `detail` have the same size |
| Elements.WellFormed | src/types/Element.ts:25-57 | at every depth, the children store is consistent and holds only the kinds the element's interface allows. It also requires each child's `parentId` to name the element that holds it. That clause is an invariant the model adds: the interface only types `parentId` as `string` (line 15), but the seed data satisfies it |
| Elements.Append | src/stores/page.ts:112-113 | pushing an element's id and filing it under that id appends the id to the order, adds exactly that key, and leaves every other entry as it was |
| Elements.AppendKeepsIndex | src/types/Element.ts:18-21 | appending under a fresh id keeps the list/detail one-to-one match and the id-equals-key rule |
| Elements.AppendChildWellFormed | src/types/Element.ts:25-57 | a fresh well-formed child may be added under an element exactly when its kind is allowed there: folders and pages under a folder, any kind under a page, only shapes under a shape |
| Elements.ShapeSubtreeOnlyShapes | src/types/Element.ts:53-57 | every element at every depth below a well-formed shape is a shape |
| Elements.FolderHoldsDirectories | src/types/Element.ts:30-33 | a well-formed folder's children are folders or pages, never shapes |
| PageStore.LowerChar | src/stores/page.ts:124 | lower-casing a character yields no upper-case letter, moves 'A'..'Z' to 'a'..'z' and leaves everything else alone |
| PageStore.ToLower | src/stores/page.ts:124 | `toLowerCase` keeps the length and lower-cases each character on its own: 'A'..'Z' become 'a'..'z' and every other character stays in place |
| PageStore.ToLowerFixed | src/stores/page.ts:124 | a string without upper-case letters is its own lower-case form |
| PageStore.Without | src/stores/page.ts:117 | filtering an id out of the list removes every occurrence of it and keeps every other id with its multiplicity |
| PageStore.WithoutAbsent | src/stores/page.ts:117 | filtering out an id that does not occur leaves the list unchanged |
| PageStore.WithoutIdempotent | src/stores/page.ts:117 | filtering the same id twice equals filtering it once |
| PageStore.WithoutSplice | src/stores/page.ts:117 | in a duplicate-free list, filtering out the id at index i cuts out exactly that position, so the remaining ids keep their order |
| PageStore.WithoutNoDuplicates | src/stores/page.ts:117 | filtering keeps a duplicate-free list duplicate-free |
| PageStore.NewPage | src/stores/page.ts:99-110 | the page `addPage` builds is a well-formed root page with the given id and no children |
| PageStore.TopLevel | src/stores/page.ts:7 | the top-level store is an `ElementStore<PageElement>`: consistent, and holding only well-formed pages whose `parentId` is null |
| PageStore.AddPageTo | src/stores/page.ts:97-114 | `addPage` appends the id at the end of `list`, maps it to a page with that id, adds only that key and changes no existing entry |
| PageStore.AddPageDefaults | src/stores/page.ts:99-110 | the new page has type page, name "page", null parent, width 1980, height 1020, x 0, y 0, scale 1 and empty children |
| PageStore.AddPageKeepsTopLevel | src/stores/page.ts:112-113 | given a fresh id, `addPage` keeps the one-to-one list/detail match and the well-formedness of the top-level pages |
| PageStore.DeletePageFrom | src/stores/page.ts:116-119 | after `deletePage(id)` the id is in neither `list` nor `detail`, every other id stays listed, and every other key keeps its element |
| PageStore.DeletePageKeepsTopLevel | src/stores/page.ts:116-119 | `deletePage` keeps the top-level invariant |
| PageStore.DeletePageKeepsOrder | src/stores/page.ts:117 | `deletePage` removes exactly the position the id held in `list`, and the remaining ids keep their relative order |
| PageStore.DeletePageAbsent | src/stores/page.ts:116-119 | `deletePage` on an id that is not a top-level page leaves the store unchanged; nested children are not searched |
| PageStore.DeletePageIdempotent | src/stores/page.ts:116-119 | applying `deletePage` twice equals applying it once |
| PageStore.AddThenDeletePage | src/stores/page.ts:97-119 | deleting the page just added under a fresh id restores the store exactly |
| PageStore.Values | src/stores/page.ts:122 | `Object.values(store.detail)` has one element per listed id and, on a consistent store, holds exactly the `detail` values |
| PageStore.NameFilter | src/stores/page.ts:123-125 | the filter keeps exactly the elements whose lower-cased name equals the query |
| PageStore.NameFilterConcat | src/stores/page.ts:123-125 | filtering a concatenation is the concatenation of the filtered parts, so the filter keeps order |
| PageStore.PagesNamed | src/stores/page.ts:121-126 | `findPageByName` returns exactly the `detail` values whose lower-cased name equals the query |
| PageStore.ValuesAppend | src/stores/page.ts:122 | after an append under a fresh id, `Object.values` is the old values followed by the new element |
| PageStore.FindAfterAddPage | src/stores/page.ts:97-126 | after `addPage`, the query returns its previous result followed by the new page exactly when the query is "page" |
| PageStore.UpperCaseQueryFindsNothing | src/stores/page.ts:124 | the query is not lower-cased, so a query containing an upper-case letter returns nothing |
| PageStore.FindAfterDeletePage | src/stores/page.ts:116-126 | after `deletePage(id)`, the query finds what it found before except the element with that id |
| PageStore.Seed | src/stores/page.ts:7-95 | the store's seed data: pages test1 and test2 in that order, holding two shapes and one shape |
| PageStore.SeedPageOneWellFormed | src/stores/page.ts:10-60 | the first seed page with its two shapes is well formed |
| PageStore.SeedPageTwoWellFormed | src/stores/page.ts:61-93 | the second seed page with its one shape is well formed |
| PageStore.SeedTopLevel | src/stores/page.ts:7-95 | the seed state satisfies the top-level invariant |
| PageStore.PageStore.constructor | src/stores/page.ts:7-95 | the store starts in the seed state, which is valid |
| PageStore.PageStore.AddPage | src/stores/page.ts:97-114 | pushes the id onto `list` and files the default page under it in `detail`; the new state is `AddPageTo` of the old one and stays valid |
| PageStore.PageStore.DeletePage | src/stores/page.ts:116-119 | reassigns `list` to the filtered list and deletes the key from `detail`; the new state is `DeletePageFrom` of the old one and stays valid |
| PageStore.PageStore.FindPageByName | src/stores/page.ts:121-126 | reads the store without changing it and returns exactly the stored pages whose lower-cased name equals the query |

## Left out

- Vue `reactive` and Pinia `defineStore` are framework reactivity. The store is an ordinary class here.
- `uuidv4()` is an external generator. `AddPage` takes the id as a parameter, with the precondition that the id is not in use.
- Geometry and scale are TypeScript numbers. They are stored as `real` values and given no numeric meaning, so floating-point behaviour is not modelled.
- ToLower: `toLowerCase` follows the full Unicode case mapping, but only 'A'..'Z' are mapped here.
- LowerChar: maps only 'A'..'Z' to 'a'..'z'; other Unicode upper-case letters are left as they are.
- UpperCaseQueryFindsNothing: is stated for queries containing one of 'A'..'Z', not for other Unicode upper-case letters.
- PagesNamed: `Object.values` lists keys that are array indices (such as "7") first, in numeric order, and all other keys in insertion order. The model uses `list` order. That matches only while no id is an array index. `uuidv4()` ids never are, but `AddPage` accepts any fresh string. With such an id, `FindAfterAddPage` and `ValuesAppend` give an order that JavaScript would not.
- FindPageByName: elements are values here, so the returned pages are copies. In the source they are the live objects in the store, and a caller who changes them changes the store.
- Valid: `store` is exported, so callers can write `list` and `detail` directly, outside the three operations. The model assumes all changes go through `AddPage` and `DeletePage`, which is what lets the invariant hold.
- The type-only files src/types/Object.ts and src/types/Editor.ts are not part of this model. The first is an older element model that the store does not import. The second holds UI types.
- The `type` field of folders and pages is fixed by the variant. A shape's `type` is any string (`typeName`).
- Recursive find-by-id, deep clone, set-home and home-page protection do not appear in the store's code, so they are not modelled.
