/** The admin category page (frontend/src/components/Categories.jsx): the category table, the
    name and subcategory inputs, the delete dialog with its selected id, and the form's
    validated flag. The server's responses are parameters. */
module CategoriesPage {
  import opened Common
  import opened Models
  import opened CategoryRoutes
  import opened Seqs
  import opened Text

  datatype Page = Page(
    categories: seq<CategoryJson>,
    newName: string,
    subInput: string,
    showModal: bool,
    selected: Option<Id>,
    validated: bool)

  /** The page once the category list has arrived; a failed fetch leaves it as it was. */
  function Loaded(pg: Page, resp: Response<seq<CategoryJson>>): (r: Page)
    ensures resp.Threw? ==> r == pg
    ensures resp.Received? ==> r.categories == resp.data && r == pg.(categories := r.categories)
  {
    match resp
    case Received(cs) => pg.(categories := cs)
    case Threw => pg
  }

  /** The browser's check of the two `required` inputs: neither may be empty. */
  predicate FormValid(pg: Page) {
    pg.newName != "" && pg.subInput != ""
  }

  /** The subcategory names typed as one comma-separated string: every piece between commas,
      trimmed, empty pieces included. */
  function ParseSubcategories(input: string): (names: seq<string>)
    ensures |names| == Count(input, ',') + 1
    ensures forall i :: 0 <= i < |names| ==> names[i] == Trim(Split(input, ',')[i])
    ensures forall i :: 0 <= i < |names| ==> ',' !in names[i]
    ensures forall i :: 0 <= i < |names| ==>
      |names[i]| == 0 || (!IsSpace(names[i][0]) && !IsSpace(names[i][|names[i]| - 1]))
  {
    var parts := Split(input, ',');
    var names := seq(|parts|, i requires 0 <= i < |parts| => Trim(parts[i]));
    forall i | 0 <= i < |names| ensures ',' !in names[i] {
      var a := TrimStart(parts[i], 0);
      assert names[i] == parts[i][a..a + |names[i]|];
    }
    names
  }

  /** The request body `handleAddCategory` posts, or None when the form does not pass the
      browser's check and nothing is sent. */
  function Request(pg: Page): (body: Option<CategoryBody>)
    ensures body.Some? <==> FormValid(pg)
    ensures body.Some? ==>
      && body.value.name == Some(pg.newName)
      && body.value.subCategories == Some(ParseSubcategories(pg.subInput))
  {
    if FormValid(pg) then Some(CategoryBody(Some(pg.newName), Some(ParseSubcategories(pg.subInput))))
    else None
  }

  /** `handleAddCategory`. The validated flag is set whatever happens; a successful request
      appends the category the server returned and clears both inputs; an invalid form or a
      failed request changes nothing else. */
  function AddCategory(pg: Page, resp: Response<CategoryJson>): (r: Page)
    ensures r.validated && r.showModal == pg.showModal && r.selected == pg.selected
    ensures !FormValid(pg) || resp.Threw? ==> r == pg.(validated := true)
    ensures FormValid(pg) && resp.Received? ==>
      && r.categories == pg.categories + [resp.data]
      && r.newName == "" && r.subInput == ""
  {
    if !FormValid(pg) then pg.(validated := true)
    else
      match resp
      case Received(c) =>
        pg.(categories := pg.categories + [c], newName := "", subInput := "", validated := true)
      case Threw => pg.(validated := true)
  }

  /** The row's Delete button: remember its id and open the dialog. */
  function ShowDeleteModal(pg: Page, id: Id): (r: Page)
    ensures r.showModal && r.selected == Some(id)
    ensures r.categories == pg.categories && r.newName == pg.newName && r.subInput == pg.subInput
    ensures r.validated == pg.validated
  {
    pg.(selected := Some(id), showModal := true)
  }

  /** The dialog's Cancel button and close icon: close it and change nothing else. */
  function HideModal(pg: Page): (r: Page)
    ensures !r.showModal && r == pg.(showModal := r.showModal)
  {
    pg.(showModal := false)
  }

  function NotSelected(selected: Option<Id>): CategoryJson -> bool {
    (c: CategoryJson) => Some(c.id) != selected
  }

  /** `handleDeleteCategory`. On success the rows with the selected id go and the dialog
      closes; when nothing is selected every row stays. A failed request leaves the page
      as it was, dialog open. */
  function DeleteCategory(pg: Page, resp: Response<()>): (r: Page)
    ensures resp.Threw? ==> r == pg
    ensures resp.Received? ==>
      && r == pg.(categories := r.categories, showModal := false)
      && (forall c :: c in r.categories ==> Some(c.id) != pg.selected)
      && (forall c :: c in pg.categories && Some(c.id) != pg.selected ==> c in r.categories)
      && Subsequence(r.categories, pg.categories)
      && (forall c :: multiset(r.categories)[c] == if Some(c.id) != pg.selected then multiset(pg.categories)[c] else 0)
  {
    match resp
    case Received(_) =>
      var rows := Filter(pg.categories, NotSelected(pg.selected));
      forall c | c in pg.categories && Some(c.id) != pg.selected ensures c in rows {
        FilterMembership(pg.categories, NotSelected(pg.selected), c);
      }
      forall c ensures multiset(rows)[c] == if Some(c.id) != pg.selected then multiset(pg.categories)[c] else 0 {
        FilterCount(pg.categories, NotSelected(pg.selected), c);
      }
      pg.(categories := rows, showModal := false)
    case Threw => pg
  }

  /** Names that hold no comma and no whitespace at either end come back unchanged from
      being typed comma-separated. */
  lemma {:induction false} ParseJoinRoundTrip(names: seq<string>)
    requires |names| >= 1
    requires forall i :: 0 <= i < |names| ==> ',' !in names[i]
    requires forall i :: 0 <= i < |names| ==>
      |names[i]| == 0 || (!IsSpace(names[i][0]) && !IsSpace(names[i][|names[i]| - 1]))
    ensures ParseSubcategories(Join(names, ',')) == names
  {
    SplitJoin(names, ',');
    var parsed := ParseSubcategories(Join(names, ','));
    forall i | 0 <= i < |names| ensures parsed[i] == names[i] {
      TrimKeepsTrimmed(names[i]);
    }
  }

  /** Empty pieces are not dropped: "a,,b" asks for a subcategory with an empty name. */
  lemma ParseKeepsEmptyPieces()
    ensures ParseSubcategories("a,,b") == ["a", "", "b"]
  {
    var names := ["a", "", "b"];
    assert Join(names, ',') == "a,,b" by {
      assert Join(names[2..], ',') == "b";
      assert Join(names[1..], ',') == ",b";
    }
    forall i | 0 <= i < |names| ensures ',' !in names[i] && (|names[i]| == 0 || (!IsSpace(names[i][0]) && !IsSpace(names[i][|names[i]| - 1]))) {
    }
    ParseJoinRoundTrip(names);
  }

  /** A request the page sends always passes the server's name check, and a create that
      succeeds makes one subcategory per comma-separated piece, each named by its trimmed
      piece. The reply's subcategories are bare ids, so the row appended to the table has no
      subcategory names to show until the list is fetched again. */
  lemma SentRequestCreates(pg: Page, st: Store, fault: Fault)
    requires Allocated(st) && FormValid(pg)
    ensures ValidCategoryName(Request(pg).value.name)
    ensures
      var out := CreateCategory(st, Request(pg).value, fault);
      out.1.Ok? ==>
        && out.1.value.name == pg.newName
        && |out.1.value.subCategories| == Count(pg.subInput, ',') + 1
        && (forall i :: 0 <= i < |out.1.value.subCategories| ==>
              && out.1.value.subCategories[i].Bare?
              && out.1.value.subCategories[i].id in out.0.subcategories
              && out.0.subcategories[out.1.value.subCategories[i].id].name == Trim(Split(pg.subInput, ',')[i]))
  {
    var body := Request(pg).value;
    assert Names(body) == ParseSubcategories(pg.subInput);
    if CreateCategory(st, body, fault).1.Ok? {
      CreateAnswersNames(st, body, fault);
    }
  }

  /** Opening the dialog on a row and confirming removes exactly the rows with that id and
      closes the dialog. */
  lemma ShowThenDeleteRemoves(pg: Page, id: Id)
    ensures
      var r := DeleteCategory(ShowDeleteModal(pg, id), Received(()));
      && !r.showModal && r.selected == Some(id)
      && (forall c :: c in r.categories <==> c in pg.categories && c.id != id)
  {
    var shown := ShowDeleteModal(pg, id);
    forall c ensures c in DeleteCategory(shown, Received(())).categories <==> c in pg.categories && c.id != id {
      FilterMembership(pg.categories, NotSelected(Some(id)), c);
    }
  }
}
