/**
 The category tree: the worklist that expands a category to its descendants, and the ancestor walk that collects
 attribute definitions.  Nothing is assumed about the parent links: they may dangle or form cycles.
 */
module CategoryTree {
  import opened Wrappers

  type CategoryId = string

  datatype Attribute = Attribute(key: string, required: bool)

  datatype Category = Category(id: CategoryId, parentId: Option<CategoryId>, attributes: seq<Attribute>)

  /** The id column is unique. */
  ghost predicate UniqueIds(categories: seq<Category>) {
    forall i, j :: 0 <= i < j < |categories| ==> categories[i].id != categories[j].id
  }

  function ById(categories: seq<Category>): map<CategoryId, Category> {
    if categories == [] then map[]
    else ById(categories[..|categories| - 1])[categories[|categories| - 1].id := categories[|categories| - 1]]
  }

  lemma {:induction false} ByIdMembers(categories: seq<Category>)
    requires UniqueIds(categories)
    ensures forall i :: 0 <= i < |categories| ==>
                          categories[i].id in ById(categories) && ById(categories)[categories[i].id] == categories[i]
    ensures forall id :: id in ById(categories) ==> ById(categories)[id].id == id && ById(categories)[id] in categories
  {
    if categories != [] {
      var init := categories[..|categories| - 1];
      ByIdMembers(init);
      assert forall i :: 0 <= i < |init| ==> init[i] == categories[i];
      assert forall c :: c in init ==> c in categories;
    }
  }

  // ----- the parent relation -----

  function Parent(byId: map<CategoryId, Category>, id: CategoryId): Option<CategoryId> {
    if id in byId && byId[id].parentId.Some? && byId[id].parentId.value in byId then byId[id].parentId else None
  }

  /** Going up n parents. */
  function Up(byId: map<CategoryId, Category>, id: CategoryId, n: nat): Option<CategoryId> {
    if n == 0 then Some(id)
    else
      match Up(byId, id, n - 1)
      case None => None
      case Some(x) => Parent(byId, x)
  }

  ghost predicate IsAncestor(byId: map<CategoryId, Category>, a: CategoryId, c: CategoryId) {
    exists n: nat :: Up(byId, c, n) == Some(a)
  }

  lemma {:induction false} UpFromParent(byId: map<CategoryId, Category>, c: CategoryId, n: nat)
    requires n > 0
    ensures Up(byId, c, n) == match Parent(byId, c) case None => None case Some(p) => Up(byId, p, n - 1)
  {
    assert Up(byId, c, 0) == Some(c);
    if n > 1 { UpFromParent(byId, c, n - 1); }
  }

  // ----- the worklist of listPublishedProducts -----

  /** The children of a category that are not listed yet, in the order of the table. */
  function NewChildren(categories: seq<Category>, id: CategoryId, listed: seq<CategoryId>): seq<CategoryId> {
    if categories == [] then []
    else NewChildren(categories[..|categories| - 1], id, listed)
         + (var c := categories[|categories| - 1]; if c.parentId == Some(id) && c.id !in listed then [c.id] else [])
  }

  ghost predicate Distinct(ids: seq<CategoryId>) {
    forall i, j :: 0 <= i < j < |ids| ==> ids[i] != ids[j]
  }

  lemma {:induction false} NewChildrenMembers(categories: seq<Category>, id: CategoryId, listed: seq<CategoryId>)
    requires UniqueIds(categories)
    ensures forall x :: x in NewChildren(categories, id, listed) <==>
                        x !in listed && x in ById(categories) && ById(categories)[x].parentId == Some(id)
    ensures Distinct(NewChildren(categories, id, listed))
  {
    if categories != [] {
      var init := categories[..|categories| - 1];
      NewChildrenMembers(init, id, listed);
      ByIdMembers(init);
      var last := categories[|categories| - 1].id;
      assert forall c :: c in init ==> c.id != last;
      assert last !in ById(init);
    }
  }

  lemma DistinctConcat(a: seq<CategoryId>, b: seq<CategoryId>)
    requires Distinct(a) && Distinct(b) && forall x :: x in b ==> x !in a
    ensures Distinct(a + b)
  {
    forall i, j | 0 <= i < j < |a + b| ensures (a + b)[i] != (a + b)[j] {
      if i < |a| <= j { assert b[j - |a|] in b; }
    }
  }

  lemma DistinctFits(ids: seq<CategoryId>, all: set<CategoryId>)
    requires Distinct(ids) && forall x :: x in ids ==> x in all
    ensures |ids| <= |all|
    decreases |ids|
  {
    if ids != [] {
      var last := ids[|ids| - 1];
      DistinctFits(ids[..|ids| - 1], all - {last});
    }
  }

  /** Every listed category descends from the selected one. */
  ghost predicate Sound(byId: map<CategoryId, Category>, selected: CategoryId, ids: seq<CategoryId>) {
    forall x :: x in ids ==> x in byId && IsAncestor(byId, selected, x)
  }

  /** The children of the first n listed categories are listed. */
  ghost predicate Closed(byId: map<CategoryId, Category>, ids: seq<CategoryId>, n: nat)
    requires n <= |ids|
  {
    forall k, x :: 0 <= k < n && x in byId && byId[x].parentId == Some(ids[k]) ==> x in ids
  }

  /**
   The loop that grows the list while it walks it.  It ends on every parent graph and lists exactly the categories
   that have the selected one as an ancestor, each once.
   */
  method ExpandCategory(categories: seq<Category>, selected: CategoryId) returns (categoryIds: seq<CategoryId>)
    requires UniqueIds(categories) && selected in ById(categories)
    ensures Distinct(categoryIds)
    ensures forall c :: c in categoryIds <==> c in ById(categories) && IsAncestor(ById(categories), selected, c)
  {
    ghost var byId := ById(categories);
    categoryIds := [selected];
    assert Up(byId, selected, 0) == Some(selected);
    DistinctFits(categoryIds, byId.Keys);
    var index := 0;
    while index < |categoryIds|
      invariant 0 <= index <= |categoryIds| <= |byId.Keys|
      invariant categoryIds != [] && categoryIds[0] == selected && Distinct(categoryIds)
      invariant Sound(byId, selected, categoryIds) && Closed(byId, categoryIds, index)
      decreases |byId.Keys| - index
    {
      var children := NewChildren(categories, categoryIds[index], categoryIds);
      NewChildrenMembers(categories, categoryIds[index], categoryIds);
      ChildrenSound(byId, selected, categoryIds[index], children);
      DistinctConcat(categoryIds, children);
      categoryIds := categoryIds + children;
      DistinctFits(categoryIds, byId.Keys);
      index := index + 1;
    }
    forall c | c in byId && IsAncestor(byId, selected, c) ensures c in categoryIds {
      var n: nat :| Up(byId, c, n) == Some(selected);
      ClosedReaches(byId, categoryIds, c, n);
    }
  }

  lemma ChildrenSound(byId: map<CategoryId, Category>, selected: CategoryId, id: CategoryId, children: seq<CategoryId>)
    requires id in byId && IsAncestor(byId, selected, id)
    requires forall x :: x in children ==> x in byId && byId[x].parentId == Some(id)
    ensures Sound(byId, selected, children)
  {
    var n: nat :| Up(byId, id, n) == Some(selected);
    forall x | x in children ensures IsAncestor(byId, selected, x) {
      UpFromParent(byId, x, n + 1);
      assert Up(byId, x, n + 1) == Some(selected);
    }
  }

  lemma {:induction false} ClosedReaches(byId: map<CategoryId, Category>, ids: seq<CategoryId>, c: CategoryId, n: nat)
    requires ids != [] && Closed(byId, ids, |ids|) && c in byId && Up(byId, c, n) == Some(ids[0])
    ensures c in ids
    decreases n
  {
    if n > 0 {
      UpFromParent(byId, c, n);
      ClosedReaches(byId, ids, Parent(byId, c).value, n - 1);
    }
  }

  // ----- the ancestor walk of validateCategoryAttributes -----

  /** A path runs from the far end down to the category: its entry k places from the end is k parents up. */
  function FromEnd(path: seq<Category>, k: nat): Category
    requires k < |path|
  {
    path[|path| - 1 - k]
  }

  ghost predicate Climbs(byId: map<CategoryId, Category>, c: CategoryId, path: seq<Category>) {
    forall k :: 0 <= k < |path| ==> FromEnd(path, k).id in byId && FromEnd(path, k) == byId[FromEnd(path, k).id]
                                    && Up(byId, c, k) == Some(FromEnd(path, k).id)
  }

  ghost predicate NoRepeat(path: seq<Category>) {
    forall i, j :: 0 <= i < j < |path| ==> path[i].id != path[j].id
  }

  /** The walk ends at a category without a parent or where the path would bite its tail. */
  ghost predicate Complete(byId: map<CategoryId, Category>, c: CategoryId, path: seq<Category>) {
    Up(byId, c, |path|) == None || exists j :: 0 <= j < |path| && Up(byId, c, |path|) == Up(byId, c, j)
  }

  ghost predicate Passes(path: seq<Category>, id: CategoryId) {
    exists i :: 0 <= i < |path| && path[i].id == id
  }

  /** Putting one more ancestor in front of a path. */
  lemma OneStepFurther(byId: map<CategoryId, Category>, c: CategoryId, path: seq<Category>, next: Category)
    requires Climbs(byId, c, path) && NoRepeat(path) && !Passes(path, next.id)
    requires next.id in byId && next == byId[next.id] && Up(byId, c, |path|) == Some(next.id)
    ensures Climbs(byId, c, [next] + path) && NoRepeat([next] + path)
    ensures forall id :: Passes([next] + path, id) <==> id == next.id || Passes(path, id)
  {
    var longer := [next] + path;
    forall k | 0 <= k < |longer|
      ensures FromEnd(longer, k).id in byId && FromEnd(longer, k) == byId[FromEnd(longer, k).id]
              && Up(byId, c, k) == Some(FromEnd(longer, k).id)
    {
      assert FromEnd(longer, k) == if k < |path| then FromEnd(path, k) else next;
    }
    forall id ensures Passes(longer, id) <==> id == next.id || Passes(path, id) {
      assert longer[0] == next;
      if i :| 0 <= i < |path| && path[i].id == id { assert longer[i + 1].id == id; }
    }
    forall i, j | 0 <= i < j < |longer| ensures longer[i].id != longer[j].id {
      if i == 0 { assert longer[j] == path[j - 1]; }
    }
  }

  method AncestorPath(categories: seq<Category>, categoryId: CategoryId) returns (path: seq<Category>)
    requires UniqueIds(categories) && categoryId in ById(categories)
    ensures Climbs(ById(categories), categoryId, path) && NoRepeat(path) && Complete(ById(categories), categoryId, path)
    ensures path != [] && path[|path| - 1].id == categoryId
  {
    var byId := ById(categories);
    ByIdMembers(categories);
    path := [];
    var visited: set<CategoryId> := {};
    var current := Some(byId[categoryId]);
    while current.Some? && current.value.id !in visited
      invariant forall id :: id in visited <==> Passes(path, id)
      invariant forall id :: id in visited ==> id in byId
      invariant Climbs(byId, categoryId, path) && NoRepeat(path)
      invariant current.Some? ==> current.value.id in byId && current.value == byId[current.value.id]
      invariant Up(byId, categoryId, |path|) == (if current.Some? then Some(current.value.id) else None)
      invariant path != [] ==> path[|path| - 1].id == categoryId
      invariant path == [] ==> current == Some(byId[categoryId])
      decreases byId.Keys - visited
    {
      var c := current.value;
      OneStepFurther(byId, categoryId, path, c);
      path := [c] + path;
      visited := visited + {c.id};
      current := if c.parentId.Some? && c.parentId.value in byId then Some(byId[c.parentId.value]) else None;
    }
    if current.Some? {
      var i :| 0 <= i < |path| && path[i].id == current.value.id;
      assert Up(byId, categoryId, |path| - 1 - i) == Some(FromEnd(path, |path| - 1 - i).id);
    }
  }

  /** Past the end of a complete path the climb only repeats itself. */
  lemma {:induction false} WrapsAround(byId: map<CategoryId, Category>, c: CategoryId, m: nat, j: nat, n: nat)
    requires j < m <= n && Up(byId, c, m) == Up(byId, c, j)
    ensures Up(byId, c, n) == Up(byId, c, n - (m - j))
    decreases n
  {
    if n > m { WrapsAround(byId, c, m, j, n - 1); }
  }

  lemma {:induction false} StaysNone(byId: map<CategoryId, Category>, c: CategoryId, m: nat, n: nat)
    requires m <= n && Up(byId, c, m) == None
    ensures Up(byId, c, n) == None
  {
    if m < n { StaysNone(byId, c, m, n - 1); }
  }

  lemma {:induction false} FoundOnPath(byId: map<CategoryId, Category>, c: CategoryId, path: seq<Category>,
                                       a: CategoryId, n: nat)
    requires Climbs(byId, c, path) && Complete(byId, c, path) && Up(byId, c, n) == Some(a)
    ensures Passes(path, a)
    decreases n
  {
    if n < |path| {
      assert FromEnd(path, n).id == a;
    } else if Up(byId, c, |path|) == None {
      StaysNone(byId, c, |path|, n);
    } else {
      var j :| 0 <= j < |path| && Up(byId, c, |path|) == Up(byId, c, j);
      WrapsAround(byId, c, |path|, j, n);
      FoundOnPath(byId, c, path, a, n - (|path| - j));
    }
  }

  /** The walk passes exactly the ancestors, on every parent graph. */
  lemma PassesAncestors(byId: map<CategoryId, Category>, c: CategoryId, path: seq<Category>, a: CategoryId)
    requires Climbs(byId, c, path) && Complete(byId, c, path)
    ensures Passes(path, a) <==> IsAncestor(byId, a, c)
  {
    if Passes(path, a) {
      var i :| 0 <= i < |path| && path[i].id == a;
      assert Up(byId, c, |path| - 1 - i) == Some(FromEnd(path, |path| - 1 - i).id);
    }
    if IsAncestor(byId, a, c) {
      var n: nat :| Up(byId, c, n) == Some(a);
      FoundOnPath(byId, c, path, a, n);
    }
  }

  /** The two loops agree: a category is listed under the selected one iff its own walk passes the selected one. */
  lemma ListedIffWalkPasses(byId: map<CategoryId, Category>, selected: CategoryId, ids: seq<CategoryId>,
                            c: CategoryId, path: seq<Category>)
    requires forall x :: x in ids <==> x in byId && IsAncestor(byId, selected, x)
    requires c in byId && Climbs(byId, c, path) && Complete(byId, c, path)
    ensures c in ids <==> Passes(path, selected)
  {
    PassesAncestors(byId, c, path, selected);
  }

  // ----- attribute definitions -----

  function Own(attributes: seq<Attribute>): map<string, Attribute> {
    if attributes == [] then map[]
    else Own(attributes[..|attributes| - 1])[attributes[|attributes| - 1].key := attributes[|attributes| - 1]]
  }

  /** Within one category the last attribute with the key counts. */
  lemma {:induction false} LastAttributeCounts(attributes: seq<Attribute>, i: nat)
    requires i < |attributes| && forall j :: i < j < |attributes| ==> attributes[j].key != attributes[i].key
    ensures attributes[i].key in Own(attributes) && Own(attributes)[attributes[i].key] == attributes[i]
  {
    if i < |attributes| - 1 { LastAttributeCounts(attributes[..|attributes| - 1], i); }
  }

  function FlatAttributes(path: seq<Category>): seq<Attribute> {
    if path == [] then [] else FlatAttributes(path[..|path| - 1]) + path[|path| - 1].attributes
  }

  /** The override map: built from the whole path, later entries replacing earlier ones. */
  function Definitions(path: seq<Category>): map<string, Attribute> {
    Own(FlatAttributes(path))
  }

  lemma {:induction false} OwnAppend(a: seq<Attribute>, b: seq<Attribute>)
    ensures Own(a + b) == Own(a) + Own(b)
  {
    if b == [] {
      assert a + b == a;
    } else {
      assert (a + b)[..|a + b| - 1] == a + b[..|b| - 1];
      OwnAppend(a, b[..|b| - 1]);
    }
  }

  predicate Defines(c: Category, key: string) {
    key in Own(c.attributes)
  }

  /** The definition used for a key is the one of the nearest category on the walk that has the key. */
  lemma {:induction false} NearestDefinition(path: seq<Category>, key: string)
    ensures key in Definitions(path) <==> exists i :: 0 <= i < |path| && Defines(path[i], key)
    ensures forall i :: 0 <= i < |path| && Defines(path[i], key)
                        && (forall j :: i < j < |path| ==> !Defines(path[j], key)) ==>
                          Definitions(path)[key] == Own(path[i].attributes)[key]
    decreases |path|
  {
    if path != [] {
      var init := path[..|path| - 1];
      NearestDefinition(init, key);
      OwnAppend(FlatAttributes(init), path[|path| - 1].attributes);
      assert forall i :: 0 <= i < |init| ==> init[i] == path[i];
      if i :| 0 <= i < |path| && Defines(path[i], key) {
        assert i < |init| ==> Defines(init[i], key);
      }
    }
  }
}
