/** Private categories and the category tree: nothing visible is lost and everything hangs under its parent. */
module ForumTree {
  import opened Wrappers
  import opened Text
  import opened Order
  import opened Indexes
  import opened Forum
  import opened ForumInvariant

  // ----- privacy along the parent chain -----

  /** A category is private when it or one of its ancestors is. */
  function IsPrivate(categories: map<string, Category>, id: string): bool
    requires ParentsEarlier(categories)
    decreases Number("category", id)
  {
    if id !in categories then false
    else if categories[id].isPrivate then true
    else match categories[id].parentId
      case None => false
      case Some(parent) => IsPrivate(categories, parent)
  }

  /** `a` is the category or one of its ancestors. */
  ghost predicate AtOrAbove(categories: map<string, Category>, a: string, id: string)
    requires ParentsEarlier(categories)
    decreases Number("category", id)
  {
    id in categories
    && (a == id
        || (categories[id].parentId.Some? && AtOrAbove(categories, a, categories[id].parentId.value)))
  }

  /** Privacy means what it says: some category at or above is marked private. */
  lemma {:induction false} PrivateIffMarkedAtOrAbove(categories: map<string, Category>, id: string)
    requires ParentsEarlier(categories)
    ensures IsPrivate(categories, id) <==>
      exists a :: a in categories && AtOrAbove(categories, a, id) && categories[a].isPrivate
    decreases Number("category", id)
  {
    if id in categories {
      assert AtOrAbove(categories, id, id);
      if categories[id].parentId.Some? {
        var parent := categories[id].parentId.value;
        PrivateIffMarkedAtOrAbove(categories, parent);
        assert forall a :: AtOrAbove(categories, a, id) <==> a == id || AtOrAbove(categories, a, parent);
      }
    }
  }

  /** `category_is_private`: the walk up the parents ends because ids only get older. */
  method CategoryIsPrivate(categories: map<string, Category>, id: string) returns (private: bool)
    requires ParentsEarlier(categories)
    ensures private == IsPrivate(categories, id)
  {
    var current := Some(id);
    while current.Some?
      invariant current.Some? ==> IsPrivate(categories, id) == IsPrivate(categories, current.value)
      invariant current.None? ==> !IsPrivate(categories, id)
      decreases current.Some?, if current.Some? then Number("category", current.value) else 0
    {
      if current.value !in categories {
        return false;
      }
      if categories[current.value].isPrivate {
        return true;
      }
      current := categories[current.value].parentId;
    }
    return false;
  }

  ghost function VisibleIds(s: State, canReadPrivate: bool): set<string>
    requires ParentsEarlier(s.categories)
  {
    set id | id in s.categories && (canReadPrivate || !IsPrivate(s.categories, id))
  }

  function Lookup(categories: map<string, Category>, ids: seq<string>): (r: seq<Category>)
    requires forall id | id in ids :: id in categories
    ensures |r| == |ids| && forall i | 0 <= i < |ids| :: r[i] == categories[ids[i]]
  {
    if ids == [] then [] else [categories[ids[0]]] + Lookup(categories, ids[1..])
  }

  /** `list_categories_for`: the visible categories in string order of their ids. */
  ghost function ListCategoriesFor(s: State, canReadPrivate: bool): seq<Category>
    requires ParentsEarlier(s.categories)
  {
    Lookup(s.categories, SortedIds(VisibleIds(s, canReadPrivate)))
  }

  // ----- the tree -----

  datatype CategoryNode = CategoryNode(category: Category, children: seq<CategoryNode>)

  function Rank(parent: Option<string>): nat {
    match parent
    case None => 0
    case Some(id) => Number("category", id)
  }

  /** Every category is younger than its parent, so building the tree ends. */
  ghost predicate Ranked(categories: seq<Category>, bound: nat) {
    forall i | 0 <= i < |categories| :: Rank(categories[i].parentId) < Number("category", categories[i].id) < bound
  }

  function ChildrenOf(parent: Option<string>, categories: seq<Category>): (r: seq<Category>)
    ensures forall c | c in r :: c in categories && c.parentId == parent
  {
    if categories == [] then []
    else (if categories[0].parentId == parent then [categories[0]] else []) + ChildrenOf(parent, categories[1..])
  }

  /** `build_category_tree` */
  function BuildCategoryTree(parent: Option<string>, categories: seq<Category>, ghost bound: nat): seq<CategoryNode>
    requires Ranked(categories, bound) && Rank(parent) < bound
    decreases bound - Rank(parent), |categories| + 1
  {
    BuildNodes(parent, ChildrenOf(parent, categories), categories, bound)
  }

  function BuildNodes(ghost parent: Option<string>, children: seq<Category>, categories: seq<Category>,
                      ghost bound: nat): seq<CategoryNode>
    requires Ranked(categories, bound) && Rank(parent) < bound
    requires forall c | c in children :: c in categories && c.parentId == parent
    decreases bound - Rank(parent), 0, |children|
  {
    if children == [] then []
    else
      [CategoryNode(children[0], BuildCategoryTree(Some(children[0].id), categories, bound))]
      + BuildNodes(parent, children[1..], categories, bound)
  }

  /** The categories of a forest, parents before children. */
  function Flatten(nodes: seq<CategoryNode>): seq<Category> {
    if nodes == [] then []
    else [nodes[0].category] + Flatten(nodes[0].children) + Flatten(nodes[1..])
  }

  /** Every node hangs directly under the node of its own parent. */
  ghost predicate UnderParent(parent: Option<string>, nodes: seq<CategoryNode>)
    decreases nodes
  {
    nodes != [] ==>
      && nodes[0].category.parentId == parent
      && UnderParent(Some(nodes[0].category.id), nodes[0].children)
      && UnderParent(parent, nodes[1..])
  }

  /** A duplicate-free list that holds the parent of each of its categories. */
  ghost predicate ClosedList(categories: seq<Category>, bound: nat) {
    && Ranked(categories, bound)
    && (forall i, j | 0 <= i < j < |categories| :: categories[i].id != categories[j].id)
    && (forall c | c in categories && c.parentId.Some? :: exists p :: p in categories && p.id == c.parentId.value)
  }

  ghost function ParentIn(categories: seq<Category>, c: Category): (p: Category)
    requires c.parentId.Some?
    requires exists p :: p in categories && p.id == c.parentId.value
    ensures p in categories && p.id == c.parentId.value
  {
    var p :| p in categories && p.id == c.parentId.value;
    p
  }

  /** The category at or above `c` whose parent is `parent`, if `c` is below `parent` at all. */
  ghost function Branch(categories: seq<Category>, bound: nat, parent: Option<string>, c: Category)
    : (b: Option<Category>)
    requires ClosedList(categories, bound) && c in categories
    ensures b.Some? ==> b.value in categories && b.value.parentId == parent
    decreases Number("category", c.id)
  {
    if c.parentId == parent then Some(c)
    else if c.parentId.None? then None
    else
      var p := ParentIn(categories, c);
      Branch(categories, bound, parent, p)
  }

  /** Some category with this parent is on the way up from `c`, unless `c` is not below it. */
  ghost predicate Hit(categories: seq<Category>, bound: nat, c: Category, child: Category)
    requires ClosedList(categories, bound) && c in categories
  {
    c == child || Branch(categories, bound, Some(child.id), c).Some?
  }

  lemma SameIdSame(categories: seq<Category>, bound: nat, a: Category, b: Category)
    requires ClosedList(categories, bound) && a in categories && b in categories && a.id == b.id
    ensures a == b
  {
  }

  /** Ancestors are older. */
  lemma {:induction false} AncestorsAreOlder(categories: seq<Category>, bound: nat, a: Category, c: Category)
    requires ClosedList(categories, bound) && c in categories && Branch(categories, bound, Some(a.id), c).Some?
    ensures Number("category", a.id) <= Rank(c.parentId)
    decreases Number("category", c.id)
  {
    if c.parentId != Some(a.id) {
      var p := ParentIn(categories, c);
      AncestorsAreOlder(categories, bound, a, p);
    }
  }

  /** The branch is the only child of `parent` on the way up. */
  lemma {:induction false} BranchIsTheHit(categories: seq<Category>, bound: nat, parent: Option<string>, c: Category,
                                          child: Category)
    requires ClosedList(categories, bound) && c in categories && child in categories && child.parentId == parent
    ensures Hit(categories, bound, c, child) <==> Branch(categories, bound, parent, c) == Some(child)
    decreases Number("category", c.id)
  {
    if c.parentId == parent {
      if c != child && Branch(categories, bound, Some(child.id), c).Some? {
        AncestorsAreOlder(categories, bound, child, c);
      }
    } else if c.parentId.Some? {
      var p := ParentIn(categories, c);
      BranchIsTheHit(categories, bound, parent, p, child);
      if p.id == child.id {
        SameIdSame(categories, bound, p, child);
      }
    }
  }

  function Bit(b: bool): nat {
    if b then 1 else 0
  }

  /** How many of the children are on the way up from `c`. */
  ghost function Hits(categories: seq<Category>, bound: nat, c: Category, children: seq<Category>): nat
    requires ClosedList(categories, bound) && c in categories
  {
    if children == [] then 0
    else Bit(Hit(categories, bound, c, children[0])) + Hits(categories, bound, c, children[1..])
  }

  lemma HeadOnlyOnce(categories: seq<Category>, bound: nat, k: nat)
    requires ClosedList(categories, bound) && k < |categories|
    ensures categories[k] !in categories[k + 1..]
  {
    hide Ranked;
  }

  lemma ChildrenOfMore(parent: Option<string>, head: Category, rest: seq<Category>)
    ensures ChildrenOf(parent, [head] + rest)
            == (if head.parentId == parent then [head] else []) + ChildrenOf(parent, rest)
  {
    assert ([head] + rest)[1..] == rest;
  }

  /** Among the children of `parent` in a stretch of the list, exactly the branch is hit. */
  lemma {:induction false} HitsInStretch(categories: seq<Category>, bound: nat, parent: Option<string>, c: Category,
                                         k: nat)
    requires ClosedList(categories, bound) && c in categories && k <= |categories|
    ensures var b := Branch(categories, bound, parent, c);
            Hits(categories, bound, c, ChildrenOf(parent, categories[k..]))
            == Bit(b.Some? && b.value in categories[k..])
    decreases |categories| - k
  {
    hide ClosedList, Branch, Hit;
    if k == |categories| {
      assert categories[k..] == [];
    } else {
      HeadOnlyOnce(categories, bound, k);
      var head, rest := categories[k], categories[k + 1..];
      assert categories[k..] == [head] + rest;
      HitsInStretch(categories, bound, parent, c, k + 1);
      ChildrenOfMore(parent, head, rest);
      if head.parentId == parent {
        BranchIsTheHit(categories, bound, parent, c, head);
        assert ([head] + ChildrenOf(parent, rest))[1..] == ChildrenOf(parent, rest);
      } else {
        assert [] + ChildrenOf(parent, rest) == ChildrenOf(parent, rest);
      }
    }
  }

  /** The forest under `parent` holds `c` once if `c` is below `parent`, and otherwise not at all. */
  lemma {:induction false} TreeHoldsOnce(categories: seq<Category>, bound: nat, parent: Option<string>, c: Category)
    requires ClosedList(categories, bound) && c in categories && Rank(parent) < bound
    ensures multiset(Flatten(BuildCategoryTree(parent, categories, bound)))[c]
            == Bit(Branch(categories, bound, parent, c).Some?)
    decreases bound - Rank(parent), 1, 0
  {
    NodesHoldHits(categories, bound, parent, ChildrenOf(parent, categories), c);
    HitsInStretch(categories, bound, parent, c, 0);
    assert categories[0..] == categories;
  }

  lemma FlattenCount(nodes: seq<CategoryNode>, c: Category)
    requires nodes != []
    ensures multiset(Flatten(nodes))[c]
            == Bit(nodes[0].category == c) + multiset(Flatten(nodes[0].children))[c] + multiset(Flatten(nodes[1..]))[c]
  {
  }

  lemma NodesOfMore(parent: Option<string>, children: seq<Category>, categories: seq<Category>, bound: nat)
    requires Ranked(categories, bound) && Rank(parent) < bound && children != []
    requires forall x | x in children :: x in categories && x.parentId == parent
    ensures Rank(parent) < Rank(Some(children[0].id)) < bound
    ensures BuildNodes(parent, children, categories, bound)
            == [CategoryNode(children[0], BuildCategoryTree(Some(children[0].id), categories, bound))]
               + BuildNodes(parent, children[1..], categories, bound)
  {
  }

  lemma {:induction false} NodesHoldHits(categories: seq<Category>, bound: nat, parent: Option<string>,
                                         children: seq<Category>, c: Category)
    requires ClosedList(categories, bound) && Ranked(categories, bound) && c in categories && Rank(parent) < bound
    requires forall x | x in children :: x in categories && x.parentId == parent
    ensures multiset(Flatten(BuildNodes(parent, children, categories, bound)))[c]
            == Hits(categories, bound, c, children)
    decreases bound - Rank(parent), 0, |children|
  {
    hide Branch, ChildrenOf, ClosedList, Ranked, Rank;
    if children == [] {
    } else {
      var head := children[0];
      var nodes := BuildNodes(parent, children, categories, bound);
      NodesOfMore(parent, children, categories, bound);
      assert nodes[1..] == BuildNodes(parent, children[1..], categories, bound);
      FlattenCount(nodes, c);
      hide Flatten, BuildNodes, BuildCategoryTree;
      TreeHoldsOnce(categories, bound, Some(head.id), c);
      NodesHoldHits(categories, bound, parent, children[1..], c);
      NotBelowItself(categories, bound, c);
    }
  }

  lemma NotBelowItself(categories: seq<Category>, bound: nat, c: Category)
    requires ClosedList(categories, bound) && c in categories
    ensures Branch(categories, bound, Some(c.id), c).None?
  {
    hide Branch;
    if Branch(categories, bound, Some(c.id), c).Some? {
      AncestorsAreOlder(categories, bound, c, c);
    }
  }

  /** In a closed list everything is below the root. */
  lemma {:induction false} EverythingBelowRoot(categories: seq<Category>, bound: nat, c: Category)
    requires ClosedList(categories, bound) && c in categories
    ensures Branch(categories, bound, None, c).Some?
    decreases Number("category", c.id)
  {
    if c.parentId.Some? {
      EverythingBelowRoot(categories, bound, ParentIn(categories, c));
    }
  }

  lemma {:induction false} TreeAddsNothing(categories: seq<Category>, bound: nat, parent: Option<string>)
    requires Ranked(categories, bound) && Rank(parent) < bound
    ensures forall c | c in Flatten(BuildCategoryTree(parent, categories, bound)) :: c in categories
    ensures UnderParent(parent, BuildCategoryTree(parent, categories, bound))
    decreases bound - Rank(parent), 1, 0
  {
    NodesAddNothing(categories, bound, parent, ChildrenOf(parent, categories));
  }

  lemma {:induction false} NodesAddNothing(categories: seq<Category>, bound: nat, parent: Option<string>,
                                           children: seq<Category>)
    requires Ranked(categories, bound) && Rank(parent) < bound
    requires forall x | x in children :: x in categories && x.parentId == parent
    ensures forall c | c in Flatten(BuildNodes(parent, children, categories, bound)) :: c in categories
    ensures UnderParent(parent, BuildNodes(parent, children, categories, bound))
    decreases bound - Rank(parent), 0, |children|
  {
    if children == [] {
    } else {
      var nodes := BuildNodes(parent, children, categories, bound);
      TreeAddsNothing(categories, bound, Some(children[0].id));
      NodesAddNothing(categories, bound, parent, children[1..]);
      assert nodes[1..] == BuildNodes(parent, children[1..], categories, bound);
    }
  }

  /** Flattening the tree gives the list back, each category once and under its parent. */
  lemma TreeIsLossless(categories: seq<Category>, bound: nat)
    requires ClosedList(categories, bound) && bound > 0
    ensures var tree := BuildCategoryTree(None, categories, bound);
            multiset(Flatten(tree)) == multiset(categories) && UnderParent(None, tree)
  {
    var flat := Flatten(BuildCategoryTree(None, categories, bound));
    TreeAddsNothing(categories, bound, None);
    assert NoDup(categories);
    forall c ensures multiset(flat)[c] == multiset(categories)[c] {
      CountAtMostOnce(categories, c);
      if c in categories {
        TreeHoldsOnce(categories, bound, None, c);
        EverythingBelowRoot(categories, bound, c);
      } else {
        assert c !in flat;
      }
    }
  }

  // ----- the listed categories form a closed list -----

  /** The privacy filter keeps the parent of everything it keeps. */
  lemma ParentVisible(s: State, canReadPrivate: bool, id: string)
    requires ParentsEarlier(s.categories)
    requires id in VisibleIds(s, canReadPrivate) && s.categories[id].parentId.Some?
    ensures s.categories[id].parentId.value in VisibleIds(s, canReadPrivate)
  {
  }

  lemma LookupFinds(categories: map<string, Category>, ids: seq<string>, id: string)
    requires forall x | x in ids :: x in categories && categories[x].id == x
    requires id in ids
    ensures categories[id] in Lookup(categories, ids)
  {
    hide Lookup;
    var list := Lookup(categories, ids);
    var i :| 0 <= i < |ids| && ids[i] == id;
    assert list[i] in list;
  }

  lemma LookupIsClosed(categories: map<string, Category>, ids: seq<string>, bound: nat)
    requires NoDup(ids)
    requires forall id | id in ids ::
      id in categories && categories[id].id == id && Rank(categories[id].parentId) < Number("category", id) < bound
    requires forall id | id in ids && categories[id].parentId.Some? :: categories[id].parentId.value in ids
    ensures ClosedList(Lookup(categories, ids), bound)
  {
    hide Number, Rank, Lookup;
    var list := Lookup(categories, ids);
    forall i | 0 <= i < |list| ensures ids[i] in ids && list[i].id == ids[i] {
    }
    forall c | c in list && c.parentId.Some? ensures exists p :: p in list && p.id == c.parentId.value {
      var i :| 0 <= i < |list| && list[i] == c;
      LookupFinds(categories, ids, c.parentId.value);
    }
  }

  lemma VisibleListIsClosed(s: State, canReadPrivate: bool)
    requires CategoriesInv(s.categories, s.nextCategoryId)
    ensures ClosedList(ListCategoriesFor(s, canReadPrivate), s.nextCategoryId)
  {
    hide IsPrivate, ClosedList, Numbered, Number;
    var ids := SortedIds(VisibleIds(s, canReadPrivate));
    forall id | id in ids
      ensures Rank(s.categories[id].parentId) < Number("category", id) < s.nextCategoryId
      ensures s.categories[id].parentId.Some? ==> s.categories[id].parentId.value in ids
    {
      NumberInRange(s.categories, "category", s.nextCategoryId, id);
      if s.categories[id].parentId.Some? {
        ParentVisible(s, canReadPrivate, id);
      }
    }
    LookupIsClosed(s.categories, ids, s.nextCategoryId);
  }

  lemma NumberInRange<T>(m: map<string, T>, kind: string, next: nat, id: string)
    requires Numbered(m, kind, next) && id in m
    ensures 1 <= Number(kind, id) < next
  {
  }

  ghost predicate IdsAscend(categories: seq<Category>) {
    forall i, j | 0 <= i < j < |categories| :: Le(categories[i].id, categories[j].id)
  }

  function Tops(nodes: seq<CategoryNode>): (r: seq<Category>)
    ensures |r| == |nodes| && forall i | 0 <= i < |nodes| :: r[i] == nodes[i].category
  {
    if nodes == [] then [] else [nodes[0].category] + Tops(nodes[1..])
  }

  /** At every level of the forest the siblings come in string order of their ids. */
  ghost predicate SiblingsAscend(nodes: seq<CategoryNode>)
    decreases nodes
  {
    IdsAscend(Tops(nodes)) && forall n | n in nodes :: SiblingsAscend(n.children)
  }

  lemma {:induction false} ChildrenAscend(parent: Option<string>, categories: seq<Category>)
    requires IdsAscend(categories)
    ensures IdsAscend(ChildrenOf(parent, categories))
  {
    hide Le;
    if categories == [] {
    } else {
      var rest := ChildrenOf(parent, categories[1..]);
      ChildrenAscend(parent, categories[1..]);
      forall c | c in rest ensures Le(categories[0].id, c.id) {
        var k :| 0 <= k < |categories[1..]| && categories[1..][k] == c;
        assert categories[k + 1] == c;
      }
    }
  }

  lemma {:induction false} TreeAscends(parent: Option<string>, categories: seq<Category>, bound: nat)
    requires Ranked(categories, bound) && Rank(parent) < bound && IdsAscend(categories)
    ensures SiblingsAscend(BuildCategoryTree(parent, categories, bound))
    decreases bound - Rank(parent), 1, 0
  {
    hide IdsAscend, Le;
    ChildrenAscend(parent, categories);
    NodesAscend(parent, ChildrenOf(parent, categories), categories, bound);
  }

  lemma {:induction false} NodesAscend(parent: Option<string>, children: seq<Category>, categories: seq<Category>,
                                       bound: nat)
    requires Ranked(categories, bound) && Rank(parent) < bound && IdsAscend(categories)
    requires forall c | c in children :: c in categories && c.parentId == parent
    ensures var nodes := BuildNodes(parent, children, categories, bound);
            Tops(nodes) == children && forall n | n in nodes :: SiblingsAscend(n.children)
    decreases bound - Rank(parent), 0, |children|
  {
    hide IdsAscend, Le, SiblingsAscend;
    if children == [] {
    } else {
      TreeAscends(Some(children[0].id), categories, bound);
      NodesAscend(parent, children[1..], categories, bound);
      var nodes := BuildNodes(parent, children, categories, bound);
      assert nodes[1..] == BuildNodes(parent, children[1..], categories, bound);
    }
  }

  /** The tree a caller gets is sorted at every level. */
  lemma CategoryTreeIsSorted(s: State, canReadPrivate: bool)
    requires IsReachable(s)
    ensures CategoriesInv(s.categories, s.nextCategoryId)
    ensures var list := ListCategoriesFor(s, canReadPrivate);
            && ClosedList(list, s.nextCategoryId) && s.nextCategoryId > 0 && IdsAscend(list)
            && SiblingsAscend(BuildCategoryTree(None, list, s.nextCategoryId))
  {
    hide CategorySlugsInv, TopicSlugsInv, Partitions, PostsInv, AccountingInv, IsReachable, IsPrivate, SiblingsAscend,
         Le, TopicsInv;
    ReachableInv(s);
    VisibleListIsClosed(s, canReadPrivate);
    var ids := SortedIds(VisibleIds(s, canReadPrivate));
    var list := ListCategoriesFor(s, canReadPrivate);
    forall i | 0 <= i < |list| ensures list[i].id == ids[i] {
      assert ids[i] in ids;
    }
    TreeAscends(None, list, s.nextCategoryId);
  }

  /** The tree a caller gets holds exactly the categories the list gives, each once, under its own parent. */
  lemma CategoryTreeIsLossless(s: State, canReadPrivate: bool)
    requires IsReachable(s)
    ensures CategoriesInv(s.categories, s.nextCategoryId)
    ensures var list := ListCategoriesFor(s, canReadPrivate);
            && ClosedList(list, s.nextCategoryId) && s.nextCategoryId > 0
            && multiset(Flatten(BuildCategoryTree(None, list, s.nextCategoryId))) == multiset(list)
            && UnderParent(None, BuildCategoryTree(None, list, s.nextCategoryId))
            && (forall id :: (exists c :: c in list && c.id == id) <==> id in VisibleIds(s, canReadPrivate))
  {
    hide CategorySlugsInv, TopicSlugsInv, Partitions, PostsInv, AccountingInv, IsReachable, ClosedList, IsPrivate;
    ReachableInv(s);
    VisibleListIsClosed(s, canReadPrivate);
    TreeIsLossless(ListCategoriesFor(s, canReadPrivate), s.nextCategoryId);
    ListShowsVisible(s, canReadPrivate);
  }

  lemma ListShowsVisible(s: State, canReadPrivate: bool)
    requires CategoriesInv(s.categories, s.nextCategoryId)
    ensures forall id ::
      (exists c :: c in ListCategoriesFor(s, canReadPrivate) && c.id == id) <==> id in VisibleIds(s, canReadPrivate)
  {
    hide Numbered, IsPrivate;
    var ids := SortedIds(VisibleIds(s, canReadPrivate));
    var list := ListCategoriesFor(s, canReadPrivate);
    forall i | 0 <= i < |list| ensures list[i].id == ids[i] && ids[i] in ids {
      assert ids[i] in ids;
    }
    forall id | id in ids ensures exists c :: c in list && c.id == id {
      var i :| 0 <= i < |ids| && ids[i] == id;
      assert list[i] in list;
    }
  }
}
