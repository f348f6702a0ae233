/** The category routes of backend/routes/categoryRoutes.js as pure functions from a store
    to the next store and the reply. A `Fault` picks the store call that fails, which shows
    the partial states the non-atomic create and delete can leave behind. */
module CategoryRoutes {
  import opened Common
  import opened Models
  import opened Seqs

  /** The JSON body of `POST /api/categories`. */
  datatype CategoryBody = CategoryBody(name: Option<string>, subCategories: Option<seq<string>>)

  /** A subcategory reference as JSON shows it: a bare id, or an id populated with its name. */
  datatype SubRef = Bare(id: Id) | Resolved(id: Id, name: string)

  /** A category document as JSON. */
  datatype CategoryJson = CategoryJson(id: Id, name: string, subCategories: seq<SubRef>)

  /** The subcategory names a create request asks for; a missing list asks for none. */
  function Names(body: CategoryBody): seq<string> {
    if body.subCategories.Some? then body.subCategories.value else []
  }

  /** How many store writes a successful create issues: the first save, then, when names
      were given, one save per name and the write-back of the id list. */
  function CreateWrites(body: CategoryBody): nat {
    if |Names(body)| == 0 then 1 else |Names(body)| + 2
  }

  /** The ids the subcategories of category `cid` receive, in input order. */
  function SubIds(cid: Id, n: nat): (ids: seq<Id>)
    ensures |ids| == n
    ensures forall i :: 0 <= i < n ==> ids[i] == cid + 1 + i
  {
    seq(n, i => cid + 1 + i)
  }

  /** A stored category as the create route returns it: subcategory ids unpopulated. */
  function Unpopulated(id: Id, c: Category): (j: CategoryJson)
    ensures j.id == id && j.name == c.name && |j.subCategories| == |c.subCategories|
    ensures forall i :: 0 <= i < |c.subCategories| ==> j.subCategories[i] == Bare(c.subCategories[i])
  {
    CategoryJson(id, c.name, seq(|c.subCategories|, i requires 0 <= i < |c.subCategories| => Bare(c.subCategories[i])))
  }

  /** The subcategory documents the concurrent saves write for category `cid`; the save of
      the i-th name is store call 1 + i. Every save is issued before any is awaited, so when
      one of them fails the others are still written. */
  function NewSubcategories(cid: Id, names: seq<string>, fault: Fault): (m: map<Id, Subcategory>)
    ensures forall k :: k in m <==> cid < k <= cid + |names| && fault != FailAt(k - cid)
    ensures forall k :: k in m ==> m[k] == Subcategory(names[k - cid - 1], cid)
  {
    if |names| == 0 then map[]
    else
      var m := NewSubcategories(cid, names[..|names| - 1], fault);
      if fault == FailAt(|names|) then m
      else m[cid + |names| := Subcategory(names[|names| - 1], cid)]
  }

  /** `POST /api/categories`: save the category, then one subcategory per name, then write the
      ids back in input order. Replies 201 with the category on success, 500 otherwise. */
  function CreateCategory(st: Store, body: CategoryBody, fault: Fault): (out: (Store, Reply<CategoryJson>))
    requires Allocated(st)
    // a category without a name is rejected before anything is written
    ensures !ValidCategoryName(body.name) ==> out == (st, Err(Invalid))
    ensures out.1.Ok? <==> ValidCategoryName(body.name) && Survives(fault, CreateWrites(body))
    ensures Status(out.1, 201) == 201 || Status(out.1, 201) == 500
    ensures Allocated(out.0) && KeepsRecords(st, out.0) && out.0.products == st.products
    // a failed category save writes nothing
    ensures fault == FailAt(0) ==> out.0 == st
    // a failed subcategory save or id-list write-back keeps the bare category and every save
    // that went through; nothing is rolled back
    ensures ValidCategoryName(body.name) && |Names(body)| > 0 && fault.FailAt? && 1 <= fault.step <= |Names(body)| + 1 ==>
      && out.1 == Err(StoreFailure)
      && out.0.categories == st.categories[st.next := Category(body.name.value, [])]
      && out.0.subcategories == st.subcategories + NewSubcategories(st.next, Names(body), fault)
  {
    if !ValidCategoryName(body.name) then (st, Err(Invalid))
    else if fault == FailAt(0) then (st, Err(StoreFailure))
    else
      var cid := st.next;
      var names := Names(body);
      var first := Category(body.name.value, []);
      var st1 := st.(categories := st.categories[cid := first], next := cid + 1);
      if |names| == 0 then (st1, Ok(Unpopulated(cid, first)))
      else
        var st2 := st1.(subcategories := st.subcategories + NewSubcategories(cid, names, fault),
                        next := cid + 1 + |names|);
        if !Survives(fault, |names| + 2) then (st2, Err(StoreFailure))
        else
          var linked := Category(first.name, SubIds(cid, |names|));
          (st2.(categories := st2.categories[cid := linked]), Ok(Unpopulated(cid, linked)))
  }

  /** The ids that have a subcategory document. */
  function Present(subs: map<Id, Subcategory>): Id -> bool {
    (i: Id) => i in subs
  }

  /** Populates a list of subcategory ids with their names. As `populate` does for arrays, an
      id with no subcategory document is dropped; the others keep their stored order. */
  function Resolve(subs: map<Id, Subcategory>, ids: seq<Id>): (refs: seq<SubRef>)
    ensures |refs| <= |ids|
    ensures forall r :: r in refs ==> r.Resolved? && r.id in ids && r.id in subs && subs[r.id].name == r.name
    ensures (forall i :: 0 <= i < |ids| ==> ids[i] in subs) ==>
      && |refs| == |ids|
      && forall i :: 0 <= i < |ids| ==> refs[i] == Resolved(ids[i], subs[ids[i]].name)
  {
    if |ids| == 0 then []
    else
      var rest := Resolve(subs, ids[1..]);
      if ids[0] in subs then [Resolved(ids[0], subs[ids[0]].name)] + rest else rest
  }

  /** The ids of a list of subcategory references, in order. */
  function Ids(refs: seq<SubRef>): seq<Id> {
    if |refs| == 0 then [] else [refs[0].id] + Ids(refs[1..])
  }

  /** Populating keeps exactly the ids that have a document, in their stored order. */
  lemma {:induction false} ResolveKeepsPresent(subs: map<Id, Subcategory>, ids: seq<Id>)
    ensures Ids(Resolve(subs, ids)) == Filter(ids, Present(subs))
  {
    if |ids| > 0 {
      ResolveKeepsPresent(subs, ids[1..]);
      var rest := Resolve(subs, ids[1..]);
      if ids[0] in subs {
        var refs := [Resolved(ids[0], subs[ids[0]].name)] + rest;
        assert refs[1..] == rest;
      }
    }
  }

  /** A missing id is dropped while the present one before it stays. */
  lemma ResolveDropsMissing()
    ensures Resolve(map[1 := Subcategory("a", 0)], [1, 2]) == [Resolved(1, "a")]
  {
  }

  /** `GET /api/categories`: every category with its subcategory ids populated with names. */
  function ListCategories(st: Store, fault: Fault): (r: Reply<map<Id, CategoryJson>>)
    ensures r.Ok? <==> Survives(fault, 1)
    ensures r.Ok? ==>
      && r.value.Keys == st.categories.Keys
      && forall c :: c in r.value ==>
           && r.value[c].id == c && r.value[c].name == st.categories[c].name
           && r.value[c].subCategories == Resolve(st.subcategories, st.categories[c].subCategories)
  {
    if !Survives(fault, 1) then Err(StoreFailure)
    else Ok(map c | c in st.categories ::
              CategoryJson(c, st.categories[c].name, Resolve(st.subcategories, st.categories[c].subCategories)))
  }

  /** `DELETE /api/categories/:id`: delete the category, then every subcategory whose
      back-reference is `id`. Products are not touched. */
  function DeleteCategory(st: Store, id: Id, fault: Fault): (out: (Store, Reply<()>))
    ensures out.0.products == st.products && out.0.next == st.next
    ensures out.1 == Err(NotFound) <==> Survives(fault, 1) && id !in st.categories
    ensures out.1 == Err(NotFound) ==> out.0 == st
    ensures out.1.Ok? <==> Survives(fault, 2) && id in st.categories
    ensures out.1.Ok? ==>
      && out.0.categories == st.categories - {id}
      && (forall s :: s in out.0.subcategories <==> s in st.subcategories && st.subcategories[s].category != id)
      && (forall s :: s in out.0.subcategories ==> out.0.subcategories[s] == st.subcategories[s])
    ensures out.1 == Err(StoreFailure) ==> out.0.subcategories == st.subcategories
    ensures !Survives(fault, 1) ==> out == (st, Err(StoreFailure))
    ensures Survives(fault, 1) && !Survives(fault, 2) && id in st.categories ==>
      out.1 == Err(StoreFailure) && out.0.categories == st.categories - {id}
    ensures Allocated(st) ==> Allocated(out.0)
  {
    if !Survives(fault, 1) then (st, Err(StoreFailure))
    else if id !in st.categories then (st, Err(NotFound))
    else
      var st1 := st.(categories := st.categories - {id});
      if !Survives(fault, 2) then (st1, Err(StoreFailure))
      else
        var kept := map s | s in st.subcategories && st.subcategories[s].category != id :: st.subcategories[s];
        (st1.(subcategories := kept), Ok(()))
  }

  /** The store a successful create leaves: the new category, holding the ids of its new
      subcategories in input order, and one subcategory per name pointing back at it. */
  function Created(st: Store, name: string, names: seq<string>): Store {
    var cid := st.next;
    Store(st.categories[cid := Category(name, SubIds(cid, |names|))],
          st.subcategories + NewSubcategories(cid, names, NoFault),
          st.products,
          cid + 1 + |names|)
  }

  /** A create that succeeds leaves exactly the `Created` store and answers with the new
      category, its subcategory ids unpopulated. */
  lemma CreateSucceeds(st: Store, body: CategoryBody, fault: Fault)
    requires Allocated(st)
    requires CreateCategory(st, body, fault).1.Ok?
    ensures
      var st' := Created(st, body.name.value, Names(body));
      CreateCategory(st, body, fault) == (st', Ok(Unpopulated(st.next, st'.categories[st.next])))
  {
    var names := Names(body);
    var cid := st.next;
    if |names| == 0 {
      assert SubIds(cid, 0) == [];
      assert NewSubcategories(cid, names, NoFault) == map[];
      assert st.subcategories + map[] == st.subcategories;
    } else {
      var m := NewSubcategories(cid, names, fault);
      var m0 := NewSubcategories(cid, names, NoFault);
      assert m == m0 by {
        assert forall k :: k in m <==> k in m0;
      }
      var first := Category(body.name.value, []);
      var linked := Category(body.name.value, SubIds(cid, |names|));
      assert st.categories[cid := first][cid := linked] == st.categories[cid := linked];
    }
  }

  /** The new subcategories of a create, indexed by input position. */
  lemma NewSubcategoriesAt(cid: Id, names: seq<string>, i: nat)
    requires i < |names|
    ensures
      var m := NewSubcategories(cid, names, NoFault);
      cid + 1 + i in m && m[cid + 1 + i] == Subcategory(names[i], cid)
  {
  }

  /** The reply of a successful create lists the new subcategories' ids, bare, in input
      order. */
  lemma CreatedReply(st: Store, name: string, names: seq<string>)
    requires Allocated(st)
    ensures
      var c := Unpopulated(st.next, Created(st, name, names).categories[st.next]);
      && c.id == st.next && c.name == name && |c.subCategories| == |names|
      && forall i :: 0 <= i < |names| ==> c.subCategories[i] == Bare(st.next + 1 + i)
  {
    var cat := Created(st, name, names).categories[st.next];
    assert cat == Category(name, SubIds(st.next, |names|));
  }

  /** Each name of a create becomes a subcategory of the `Created` store under a fresh id,
      in input order. */
  lemma CreatedSubcategories(st: Store, name: string, names: seq<string>)
    requires Allocated(st)
    ensures
      forall k :: st.next < k <= st.next + |names| ==> k !in st.categories && k !in st.subcategories
    ensures
      var st' := Created(st, name, names);
      forall k :: st.next < k <= st.next + |names| ==>
        k in st'.subcategories && st'.subcategories[k] == Subcategory(names[k - st.next - 1], st.next)
  {
  }

  /** The `Created` store gains one category, under a fresh id, holding the new ids. */
  lemma CreatedCategory(st: Store, name: string, names: seq<string>)
    requires Allocated(st)
    ensures
      var cid := st.next;
      var st' := Created(st, name, names);
      && cid !in st.categories && cid !in st.subcategories
      && st'.categories.Keys == st.categories.Keys + {cid}
      && st'.categories[cid] == Category(name, SubIds(cid, |names|))
  {
  }

  /** The `Created` store adds no subcategory beyond the new ids. */
  lemma CreatedNoOtherSubcategory(st: Store, name: string, names: seq<string>)
    ensures
      var st' := Created(st, name, names);
      forall k :: k in st'.subcategories ==> k in st.subcategories || st.next < k <= st.next + |names|
  {
  }

  /** When no subcategory names are given, create writes no subcategory and leaves the new
      category's list empty. */
  lemma CreateWithoutNames(st: Store, body: CategoryBody, fault: Fault)
    requires Allocated(st)
    requires |Names(body)| == 0
    ensures
      var (st', r) := CreateCategory(st, body, fault);
      && st'.subcategories == st.subcategories
      && (r.Ok? ==> r.value.subCategories == [] && st'.categories[r.value.id].subCategories == [])
  {
  }

  /** Each subcategory of the `Created` store is listed by its category. */
  lemma CreatedUpLinked(st: Store, name: string, names: seq<string>)
    requires Allocated(st) && UpLinked(st)
    ensures UpLinked(Created(st, name, names))
  {
    var st' := Created(st, name, names);
    var cid := st.next;
    var m := NewSubcategories(cid, names, NoFault);
    var ids := SubIds(cid, |names|);
    forall s | s in st'.subcategories
      ensures st'.subcategories[s].category in st'.categories
      ensures s in st'.categories[st'.subcategories[s].category].subCategories
    {
      if s in m {
        assert st'.subcategories[s] == Subcategory(names[s - cid - 1], cid);
        assert ids[s - cid - 1] == s;
      } else {
        var c := st.subcategories[s].category;
        assert st'.subcategories[s] == st.subcategories[s];
        assert c < cid;
        assert st'.categories[c] == st.categories[c];
      }
    }
  }

  /** Each id a category of the `Created` store lists points back at that category. */
  lemma CreatedDownLinked(st: Store, name: string, names: seq<string>)
    requires Allocated(st) && DownLinked(st)
    ensures DownLinked(Created(st, name, names))
  {
    var st' := Created(st, name, names);
    var cid := st.next;
    forall c, i | c in st'.categories && 0 <= i < |st'.categories[c].subCategories|
      ensures st'.categories[c].subCategories[i] in st'.subcategories
      ensures st'.subcategories[st'.categories[c].subCategories[i]].category == c
    {
      if c == cid {
        NewSubcategoriesAt(cid, names, i);
      } else {
        var s := st.categories[c].subCategories[i];
        assert st'.categories[c] == st.categories[c];
        assert s in st.subcategories && s < cid;
        assert st'.subcategories[s] == st.subcategories[s];
      }
    }
  }

  /** A successful create keeps every category linked with its subcategories. */
  lemma CreatePreservesLinked(st: Store, body: CategoryBody, fault: Fault)
    requires Allocated(st) && Linked(st)
    requires CreateCategory(st, body, fault).1.Ok?
    ensures Linked(CreateCategory(st, body, fault).0)
  {
    CreateSucceeds(st, body, fault);
    CreatedUpLinked(st, body.name.value, Names(body));
    CreatedDownLinked(st, body.name.value, Names(body));
  }

  /** When the write-back of the id list fails, every subcategory has been saved pointing at
      the new category while that category still lists none of them: the link is broken and
      the route only answers 500. */
  lemma CreateFailureBreaksLink(st: Store, body: CategoryBody)
    requires Allocated(st)
    requires ValidCategoryName(body.name) && |Names(body)| > 0
    ensures
      var out := CreateCategory(st, body, FailAt(|Names(body)| + 1));
      && out.1 == Err(StoreFailure)
      && st.next in out.0.categories && out.0.categories[st.next].subCategories == []
      && (forall k :: st.next < k <= st.next + |Names(body)| ==>
            k in out.0.subcategories && out.0.subcategories[k].category == st.next)
      && !Linked(out.0)
  {
    var st' := CreateCategory(st, body, FailAt(|Names(body)| + 1)).0;
    var s := st.next + 1;
    assert s in st'.subcategories;
    assert s !in st'.categories[st'.subcategories[s].category].subCategories;
  }

  /** Every subcategory of a linked store exists, so listing resolves each category's whole
      id list to names, in stored order. */
  lemma ListResolvesLinked(st: Store)
    requires Linked(st)
    ensures
      var r := ListCategories(st, NoFault);
      forall c, i :: c in st.categories && 0 <= i < |st.categories[c].subCategories| ==>
        && |r.value[c].subCategories| == |st.categories[c].subCategories|
        && r.value[c].subCategories[i] == Resolved(st.categories[c].subCategories[i],
                                                   st.subcategories[st.categories[c].subCategories[i]].name)
  {
    var r := ListCategories(st, NoFault);
    forall c | c in st.categories
      ensures |r.value[c].subCategories| == |st.categories[c].subCategories|
      ensures forall i :: 0 <= i < |st.categories[c].subCategories| ==>
        r.value[c].subCategories[i] == Resolved(st.categories[c].subCategories[i],
                                                st.subcategories[st.categories[c].subCategories[i]].name)
    {
      ListShowsResolved(st, c);
    }
  }

  /** Creating a category and then listing shows it with its subcategory names in the order
      they were given. */
  lemma CreateThenList(st: Store, body: CategoryBody, fault: Fault)
    requires Allocated(st)
    requires CreateCategory(st, body, fault).1.Ok?
    ensures
      var out := CreateCategory(st, body, fault);
      var c := out.1.value;
      && c.id in ListCategories(out.0, NoFault).value
      && var listed := ListCategories(out.0, NoFault).value[c.id];
      && listed.name == body.name.value
      && |listed.subCategories| == |Names(body)| == |c.subCategories|
      && forall i :: 0 <= i < |Names(body)| ==>
           listed.subCategories[i] == Resolved(c.subCategories[i].id, Names(body)[i])
  {
    var names := Names(body);
    var st' := Created(st, body.name.value, names);
    var c := Unpopulated(st.next, st'.categories[st.next]);
    CreateSucceeds(st, body, fault);
    assert CreateCategory(st, body, fault) == (st', Ok(c));
    CreatedReply(st, body.name.value, names);
    CreatedThenList(st, body.name.value, names);
  }

  /** A successful create answers with the requested name and, at each position, the bare
      id of a stored subcategory carrying that position's name. */
  lemma CreateAnswersNames(st: Store, body: CategoryBody, fault: Fault)
    requires Allocated(st)
    requires CreateCategory(st, body, fault).1.Ok?
    ensures
      var out := CreateCategory(st, body, fault);
      && out.1.value.name == body.name.value
      && |out.1.value.subCategories| == |Names(body)|
      && forall i :: 0 <= i < |Names(body)| ==>
           && out.1.value.subCategories[i].Bare?
           && out.1.value.subCategories[i].id in out.0.subcategories
           && out.0.subcategories[out.1.value.subCategories[i].id].name == Names(body)[i]
  {
    var names := Names(body);
    var st' := Created(st, body.name.value, names);
    CreateSucceeds(st, body, fault);
    assert CreateCategory(st, body, fault) == (st', Ok(Unpopulated(st.next, st'.categories[st.next])));
    CreatedAnswersNames(st, body.name.value, names);
  }

  /** The reply of a successful create names the category and, at each position, a bare id
      of a stored subcategory carrying that position's name. */
  lemma CreatedAnswersNames(st: Store, name: string, names: seq<string>)
    requires Allocated(st)
    ensures
      var st' := Created(st, name, names);
      var c := Unpopulated(st.next, st'.categories[st.next]);
      && c.name == name && |c.subCategories| == |names|
      && forall i :: 0 <= i < |names| ==>
           && c.subCategories[i].Bare?
           && c.subCategories[i].id in st'.subcategories
           && st'.subcategories[c.subCategories[i].id].name == names[i]
  {
    var st' := Created(st, name, names);
    var c := Unpopulated(st.next, st'.categories[st.next]);
    CreatedReply(st, name, names);
    CreatedSubcategories(st, name, names);
    forall i | 0 <= i < |names|
      ensures c.subCategories[i].id in st'.subcategories
      ensures st'.subcategories[c.subCategories[i].id].name == names[i]
    {
      assert c.subCategories[i].id == st.next + 1 + i;
    }
  }

  /** Listing the `Created` store resolves every new subcategory id to its name. */
  lemma CreatedThenList(st: Store, name: string, names: seq<string>)
    requires Allocated(st)
    ensures
      var st' := Created(st, name, names);
      && st.next in ListCategories(st', NoFault).value
      && var listed := ListCategories(st', NoFault).value[st.next];
      && listed.name == name && |listed.subCategories| == |names|
      && forall i :: 0 <= i < |names| ==> listed.subCategories[i] == Resolved(st.next + 1 + i, names[i])
  {
    CreatedCategory(st, name, names);
    CreatedSubcategories(st, name, names);
    ListShowsNewCategory(Created(st, name, names), st.next, name, names);
  }

  /** A category `c` holding the ids c+1.. of subcategories named `names` lists with those
      names, in order. */
  lemma ListShowsNewCategory(st: Store, c: Id, name: string, names: seq<string>)
    requires c in st.categories && st.categories[c] == Category(name, SubIds(c, |names|))
    requires forall k :: c < k <= c + |names| ==>
      k in st.subcategories && st.subcategories[k] == Subcategory(names[k - c - 1], c)
    ensures
      && c in ListCategories(st, NoFault).value
      && var listed := ListCategories(st, NoFault).value[c];
      && listed.name == name && |listed.subCategories| == |names|
      && forall i :: 0 <= i < |names| ==> listed.subCategories[i] == Resolved(c + 1 + i, names[i])
  {
    var ids := SubIds(c, |names|);
    forall i | 0 <= i < |ids|
      ensures ids[i] in st.subcategories && st.subcategories[ids[i]].name == names[i]
    {
      assert ids[i] == c + 1 + i;
    }
    ListShowsResolved(st, c);
  }

  /** A category whose subcategory ids all exist lists with each id resolved, in order. */
  lemma ListShowsResolved(st: Store, c: Id)
    requires c in st.categories
    requires forall i :: 0 <= i < |st.categories[c].subCategories| ==> st.categories[c].subCategories[i] in st.subcategories
    ensures
      var ids := st.categories[c].subCategories;
      && c in ListCategories(st, NoFault).value
      && var listed := ListCategories(st, NoFault).value[c];
      && listed.name == st.categories[c].name && |listed.subCategories| == |ids|
      && forall i :: 0 <= i < |ids| ==> listed.subCategories[i] == Resolved(ids[i], st.subcategories[ids[i]].name)
  {
  }

  /** Deleting a category keeps the remaining categories and subcategories linked. */
  lemma DeletePreservesLinked(st: Store, id: Id, fault: Fault)
    requires Linked(st)
    requires DeleteCategory(st, id, fault).1.Ok?
    ensures Linked(DeleteCategory(st, id, fault).0)
  {
    var st' := DeleteCategory(st, id, fault).0;
    forall c, i | c in st'.categories && 0 <= i < |st'.categories[c].subCategories|
      ensures st'.categories[c].subCategories[i] in st'.subcategories
      ensures st'.subcategories[st'.categories[c].subCategories[i]].category == c
    {
      assert st'.categories[c] == st.categories[c];
      var s := st.categories[c].subCategories[i];
      assert st.subcategories[s].category == c != id;
    }
  }

  /** When the cascade fails after the category is gone, its subcategories stay behind pointing
      at a category that no longer exists. */
  lemma DeleteFailureOrphans(st: Store, id: Id, s: Id)
    requires id in st.categories
    requires s in st.subcategories && st.subcategories[s].category == id
    ensures
      var (st', r) := DeleteCategory(st, id, FailAt(1));
      && r == Err(StoreFailure)
      && s in st'.subcategories && st'.subcategories[s].category !in st'.categories
      && !Linked(st')
  {
  }

  /** Deleting a category leaves products that referenced it pointing at a missing category. */
  lemma DeleteLeavesProductsDangling(st: Store, id: Id, fault: Fault, p: Id)
    requires DeleteCategory(st, id, fault).1.Ok?
    requires p in st.products && st.products[p].category == Some(id)
    ensures
      var st' := DeleteCategory(st, id, fault).0;
      p in st'.products && st'.products[p].category == Some(id) && id !in st'.categories
  {
  }
}
