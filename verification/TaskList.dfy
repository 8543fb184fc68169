/** The task list: sections, statuses, links and completion counter in both display modes. */
module TaskList {
  import opened Common

  // ----- forms and states -----

  datatype Value = Undefined | Null | Str(s: string) | Other

  type FormState = map<string, Value>

  datatype Field = Field(name: string, required: bool)

  /** `at` is the page's position in the definition: the identity of its definition object.  An empty section or
      condition is an absent one. */
  datatype Page = Page(at: nat, path: string, section: string, controller: string, condition: string)

  datatype FormModel = FormModel(
    pages: seq<Page>, fields: map<string, seq<Field>>, conditions: map<string, FormState -> bool>,
    titles: map<string, string>, basePath: string)

  ghost predicate WellNumbered(m: FormModel) {
    forall i :: 0 <= i < |m.pages| ==> m.pages[i].at == i
  }

  function Evaluate(m: FormModel, condition: string, state: FormState): bool {
    condition in m.conditions && m.conditions[condition](state)
  }

  function RequiredNames(fields: seq<Field>): seq<string> {
    if fields == [] then []
    else (if fields[0].required then [fields[0].name] else []) + RequiredNames(fields[1..])
  }

  function ComponentNames(m: FormModel, page: Page): seq<string> {
    if page.path in m.fields then RequiredNames(m.fields[page.path]) else []
  }

  predicate Answered(name: string, state: FormState) {
    || (name in state && state[name] != Undefined && state[name] != Null && state[name] != Str(""))
    || exists key :: key in state && name + "__" <= key
  }

  /** null, false and true of the source. */
  datatype Completion = Hidden | Incomplete | Complete

  function PageCompletion(m: FormModel, page: Page, state: FormState): Completion {
    var names := ComponentNames(m, page);
    if names == [] then Incomplete
    else if page.condition != "" && !Evaluate(m, page.condition, state) then Hidden
    else if forall name :: name in names ==> Answered(name, state) then Complete
    else Incomplete
  }

  lemma {:induction false} RequiredMembers(fields: seq<Field>)
    ensures forall name :: name in RequiredNames(fields) <==> Field(name, true) in fields
  {
    if fields != [] {
      RequiredMembers(fields[1..]);
      assert fields == [fields[0]] + fields[1..];
    }
  }

  /** The page has a field without which it cannot be complete. */
  ghost predicate HasRequiredField(m: FormModel, page: Page) {
    page.path in m.fields && exists f :: f in m.fields[page.path] && f.required
  }

  /** A condition holds: it is absent, or it is defined and true of the state. */
  predicate Holds(m: FormModel, condition: string, state: FormState) {
    condition == "" || (condition in m.conditions && m.conditions[condition](state))
  }

  /** A value other than undefined, null and the empty string, or any value of a subfield. */
  ghost predicate HasValue(name: string, state: FormState) {
    || (name in state && (state[name].Other? || (state[name].Str? && state[name].s != "")))
    || exists subfield :: name + "__" + subfield in state
  }

  lemma AnsweredHasValue(name: string, state: FormState)
    ensures Answered(name, state) <==> HasValue(name, state)
  {
    if key :| key in state && name + "__" <= key {
      var subfield := key[|name + "__"|..];
      assert key == name + "__" + subfield;
    }
    if subfield :| name + "__" + subfield in state {
      assert name + "__" <= name + "__" + subfield;
    }
  }

  /** A page is complete exactly when it has a required field, its condition holds and every required field has a value;
      it is hidden exactly when it has a required field and its condition fails. */
  lemma CompletionMeaning(m: FormModel, page: Page, state: FormState)
    ensures PageCompletion(m, page, state) == Complete <==>
            HasRequiredField(m, page) && Holds(m, page.condition, state)
            && forall f :: f in m.fields[page.path] && f.required ==> HasValue(f.name, state)
    ensures PageCompletion(m, page, state) == Hidden <==> HasRequiredField(m, page) && !Holds(m, page.condition, state)
  {
    hide Answered, HasValue;
    var names := ComponentNames(m, page);
    if page.path in m.fields {
      var fields := m.fields[page.path];
      RequiredMembers(fields);
      forall f | f in fields && f.required ensures f.name in names {
        assert f == Field(f.name, true);
      }
      if names != [] {
        assert names[0] in names;
      }
      forall name | name in names ensures Answered(name, state) <==> HasValue(name, state) {
        AnsweredHasValue(name, state);
      }
    }
  }

  /** Answering more never turns an unconditional page back to incomplete. */
  lemma AnswersAccumulate(m: FormModel, page: Page, state: FormState, more: FormState)
    requires page.condition == "" && forall key :: key in state ==> key in more && more[key] == state[key]
    ensures PageCompletion(m, page, state) == Complete ==> PageCompletion(m, page, more) == Complete
  {
    forall name | Answered(name, state) ensures Answered(name, more) {
      if key :| key in state && name + "__" <= key {
        assert key in more;
      }
    }
  }

  /** A page is complete, or hidden, only if it has a required field; one with optional fields alone stays
      incomplete. */
  lemma PageWithoutRequiredFieldsNeverCompletes(m: FormModel, page: Page, state: FormState)
    ensures ComponentNames(m, page) == [] ==> PageCompletion(m, page, state) == Incomplete
    ensures ComponentNames(m, page) == [] && IsTaskPage(page) && page in TaskPages(m) ==>
              !CompletionStats(m, state).isComplete
  {
    CountsMeanAllDone(m, state, TaskPages(m));
  }

  /** A form of one page with one optional field, which has been answered: it never counts as complete. */
  lemma OptionalAnswerDoesNotComplete()
    ensures var page := Page(0, "/p", "s", "QuestionPageController", "");
            var m := FormModel([page], map["/p" := [Field("q", false)]], map[], map["s" := "S"], "/f");
            !CompletionStats(m, map["q" := Str("yes")]).isComplete
  {
    var page := Page(0, "/p", "s", "QuestionPageController", "");
    var m := FormModel([page], map["/p" := [Field("q", false)]], map[], map["s" := "S"], "/f");
    assert RequiredNames([Field("q", false)]) == [];
    assert TaskPagesOf(m.pages[..0]) == [] && TaskPages(m) == [page];
    PageWithoutRequiredFieldsNeverCompletes(m, page, map["q" := Str("yes")]);
  }

  // ----- exit pages -----

  function FindPath(pages: seq<Page>, path: string): (i: int)
    ensures -1 <= i < |pages|
  {
    if pages == [] then -1
    else if pages[0].path == path then 0
    else
      var rest := FindPath(pages[1..], path);
      if rest == -1 then -1 else rest + 1
  }

  predicate IsTriggeredExit(m: FormModel, page: Page, state: FormState) {
    page.controller == "TerminalPageController" && page.condition != "" && Evaluate(m, page.condition, state)
  }

  /** Some triggered exit page follows the page before any page with a section. */
  ghost predicate TriggersExit(m: FormModel, page: Page, state: FormState) {
    var from := FindPath(m.pages, page.path);
    exists i :: from < i < |m.pages| && IsTriggeredExit(m, m.pages[i], state)
                && forall j :: from < j <= i ==> m.pages[j].section == ""
  }

  /** The position of the last page before `i` that has a section, or -1. */
  function LastSection(pages: seq<Page>, i: nat): (s: int)
    requires i <= |pages|
    ensures -1 <= s < i && (s >= 0 ==> pages[s].section != "")
    ensures forall j :: s < j < i ==> pages[j].section == ""
  {
    if i == 0 then -1 else if pages[i - 1].section != "" then i - 1 else LastSection(pages, i - 1)
  }

  /** Page `i` is an exit page outside the sections, and its condition holds. */
  ghost predicate IsOpenExit(m: FormModel, state: FormState, i: nat) {
    && i < |m.pages| && m.pages[i].controller == "TerminalPageController" && m.pages[i].section == ""
    && m.pages[i].condition != "" && Holds(m, m.pages[i].condition, state)
  }

  /** An exit page belongs to the last page with a section before it: a page with a section triggers exactly the exits
      that belong to it. */
  lemma ExitBelongsToLastSection(m: FormModel, page: Page, state: FormState)
    requires FindPath(m.pages, page.path) >= 0 && m.pages[FindPath(m.pages, page.path)].section != ""
    ensures TriggersExit(m, page, state) <==>
            exists i: nat :: IsOpenExit(m, state, i) && LastSection(m.pages, i) == FindPath(m.pages, page.path)
  {
    var from := FindPath(m.pages, page.path);
    if i :| from < i < |m.pages| && IsTriggeredExit(m, m.pages[i], state)
            && forall j :: from < j <= i ==> m.pages[j].section == "" {
      assert IsOpenExit(m, state, i) && LastSection(m.pages, i) == from;
    }
  }

  ghost predicate UniquePaths(m: FormModel) {
    forall i, j :: 0 <= i < j < |m.pages| ==> m.pages[i].path != m.pages[j].path
  }

  lemma {:induction false} PathIsFound(pages: seq<Page>, k: nat)
    requires k < |pages| && forall i, j :: 0 <= i < j < |pages| ==> pages[i].path != pages[j].path
    ensures FindPath(pages, pages[k].path) == k
  {
    if k > 0 {
      PathIsFound(pages[1..], k - 1);
    }
  }

  method ComputeTriggersExit(m: FormModel, page: Page, state: FormState) returns (triggers: bool)
    ensures triggers == TriggersExit(m, page, state)
  {
    var from := FindPath(m.pages, page.path);
    var i := from + 1;
    while i < |m.pages|
      invariant from < i <= |m.pages|
      invariant forall j :: from < j < i ==> m.pages[j].section == "" && !IsTriggeredExit(m, m.pages[j], state)
    {
      if m.pages[i].section != "" {
        return false;
      }
      if IsTriggeredExit(m, m.pages[i], state) {
        return true;
      }
      i := i + 1;
    }
    triggers := false;
  }

  // ----- task pages -----

  predicate IsTaskPage(page: Page) {
    page.section != ""
    && page.controller !in {"TerminalPageController", "SelectActionsPageController", "ConsentPageController"}
  }

  function TaskPagesOf(pages: seq<Page>): seq<Page> {
    if pages == [] then []
    else
      var last := pages[|pages| - 1];
      TaskPagesOf(pages[..|pages| - 1]) + (if IsTaskPage(last) then [last] else [])
  }

  function TaskPages(m: FormModel): seq<Page> {
    TaskPagesOf(m.pages)
  }

  ghost predicate Ascending(pages: seq<Page>) {
    forall i, j :: 0 <= i < j < |pages| ==> pages[i].at < pages[j].at
  }

  lemma InSplit<T>(s: seq<T>)
    requires s != []
    ensures forall x :: x in s <==> x in s[..|s| - 1] || x == s[|s| - 1]
  {
    assert s == s[..|s| - 1] + [s[|s| - 1]];
  }

  lemma {:induction false} TaskPagesAreOrdered(pages: seq<Page>)
    requires Ascending(pages)
    ensures Ascending(TaskPagesOf(pages))
    ensures forall p :: p in TaskPagesOf(pages) <==> p in pages && IsTaskPage(p)
  {
    if pages != [] {
      var init, last := pages[..|pages| - 1], pages[|pages| - 1];
      TaskPagesAreOrdered(init);
      InSplit(pages);
      forall p | p in init ensures p.at < last.at {
        var i :| 0 <= i < |init| && init[i] == p;
        assert pages[i] == p;
      }
      forall i | 0 <= i < |TaskPagesOf(init)| ensures TaskPagesOf(init)[i].at < last.at {
        assert TaskPagesOf(init)[i] in TaskPagesOf(init);
      }
    }
  }

  /** The task pages are the pages with a section, except exit pages and the two land-grant pages. */
  lemma TaskPagesHaveSections(m: FormModel, p: Page)
    requires WellNumbered(m)
    ensures p in TaskPages(m) <==>
            p in m.pages && p.section != "" && p.controller != "TerminalPageController"
            && p.controller != "SelectActionsPageController" && p.controller != "ConsentPageController"
  {
    assert Ascending(m.pages);
    TaskPagesAreOrdered(m.pages);
  }

  // ----- grouping by section -----

  function FirstSeen(pages: seq<Page>): seq<string> {
    if pages == [] then []
    else
      var before, section := FirstSeen(pages[..|pages| - 1]), pages[|pages| - 1].section;
      if section in before then before else before + [section]
  }

  function InSection(pages: seq<Page>, id: string): seq<Page> {
    if pages == [] then []
    else
      var last := pages[|pages| - 1];
      InSection(pages[..|pages| - 1], id) + (if last.section == id then [last] else [])
  }

  /** The grouping loop: a Map of arrays filled page by page. */
  method GroupBySection(pages: seq<Page>) returns (ids: seq<string>, groups: map<string, seq<Page>>)
    ensures ids == FirstSeen(pages)
    ensures forall id :: id in ids <==> id in groups
    ensures forall id :: id in groups ==> groups[id] == InSection(pages, id)
  {
    ids, groups := [], map[];
    var i := 0;
    while i < |pages|
      invariant 0 <= i <= |pages|
      invariant ids == FirstSeen(pages[..i])
      invariant forall id :: id in ids <==> id in groups
      invariant forall id :: id in groups ==> groups[id] == InSection(pages[..i], id)
      invariant forall id :: id !in groups ==> InSection(pages[..i], id) == []
    {
      assert pages[..i + 1][..i] == pages[..i];
      var id := pages[i].section;
      if id !in groups {
        ids, groups := ids + [id], groups[id := []];
      }
      groups := groups[id := groups[id] + [pages[i]]];
      i := i + 1;
    }
    assert pages[..|pages|] == pages;
  }

  ghost predicate Distinct(ids: seq<string>) {
    forall i, j :: 0 <= i < j < |ids| ==> ids[i] != ids[j]
  }

  lemma {:induction false} SectionMembers(pages: seq<Page>, id: string)
    ensures forall p :: p in InSection(pages, id) <==> p in pages && p.section == id
  {
    if pages != [] {
      SectionMembers(pages[..|pages| - 1], id);
      InSplit(pages);
    }
  }

  lemma {:induction false} SectionsAreDistinct(pages: seq<Page>)
    ensures Distinct(FirstSeen(pages))
    ensures forall p :: p in pages ==> p.section in FirstSeen(pages)
    ensures forall id :: id in FirstSeen(pages) ==> InSection(pages, id) != []
  {
    if pages != [] {
      SectionsAreDistinct(pages[..|pages| - 1]);
      InSplit(pages);
    }
  }

  /** Some page of one section comes before all pages of the other. */
  ghost predicate StartsBefore(pages: seq<Page>, id: string, other: string) {
    exists a :: 0 <= a < |pages| && pages[a].section == id
                && forall b :: 0 <= b < |pages| && pages[b].section == other ==> a < b
  }

  lemma StartsBeforeStill(pages: seq<Page>, last: Page, id: string, other: string)
    requires StartsBefore(pages, id, other)
    ensures StartsBefore(pages + [last], id, other)
  {
    var a :| 0 <= a < |pages| && pages[a].section == id
             && forall b :: 0 <= b < |pages| && pages[b].section == other ==> a < b;
    assert (pages + [last])[a].section == id;
  }

  lemma NewSectionStartsLast(pages: seq<Page>, last: Page, id: string)
    requires id in FirstSeen(pages) && last.section !in FirstSeen(pages)
    ensures StartsBefore(pages + [last], id, last.section)
  {
    SectionsAreDistinct(pages);
    SectionMembers(pages, id);
    assert InSection(pages, id)[0] in InSection(pages, id);
    var a :| 0 <= a < |pages| && pages[a].section == id;
    assert (pages + [last])[a].section == id;
    assert forall b :: 0 <= b < |pages| ==> pages[b] in pages;
  }

  /** The sections stand in the order of their first pages. */
  lemma {:induction false} SectionsFollowFirstPages(pages: seq<Page>, i: nat, j: nat)
    requires i < j < |FirstSeen(pages)|
    ensures StartsBefore(pages, FirstSeen(pages)[i], FirstSeen(pages)[j])
  {
    hide StartsBefore, InSection;
    if pages != [] {
      var init, last := pages[..|pages| - 1], pages[|pages| - 1];
      assert pages == init + [last];
      if j < |FirstSeen(init)| {
        SectionsFollowFirstPages(init, i, j);
        StartsBeforeStill(init, last, FirstSeen(init)[i], FirstSeen(init)[j]);
      } else {
        NewSectionStartsLast(init, last, FirstSeen(init)[i]);
      }
    }
  }

  lemma {:induction false} SectionIsSubsequence(pages: seq<Page>, id: string)
    requires Ascending(pages)
    ensures Ascending(InSection(pages, id))
  {
    if pages != [] {
      var init, last := pages[..|pages| - 1], pages[|pages| - 1];
      SectionIsSubsequence(init, id);
      SectionMembers(init, id);
      forall i | 0 <= i < |InSection(init, id)| ensures InSection(init, id)[i].at < last.at {
        assert InSection(init, id)[i] in init;
        var k :| 0 <= k < |init| && init[k] == InSection(init, id)[i];
        assert pages[k] == init[k];
      }
    }
  }

  function Regrouped(pages: seq<Page>, ids: seq<string>): seq<Page> {
    if ids == [] then [] else InSection(pages, ids[0]) + Regrouped(pages, ids[1..])
  }

  lemma {:induction false} RegroupingAddsOne(pages: seq<Page>, ids: seq<string>)
    requires pages != [] && Distinct(ids)
    ensures var init, last := pages[..|pages| - 1], pages[|pages| - 1];
            multiset(Regrouped(pages, ids))
            == multiset(Regrouped(init, ids)) + (if last.section in ids then multiset{last} else multiset{})
  {
    if ids != [] {
      RegroupingAddsOne(pages, ids[1..]);
    }
  }

  lemma {:induction false} EmptySectionsAddNothing(pages: seq<Page>, ids: seq<string>, id: string)
    requires InSection(pages, id) == []
    ensures Regrouped(pages, ids + [id]) == Regrouped(pages, ids)
  {
    if ids == [] {
      assert Regrouped(pages, [id]) == InSection(pages, id) + Regrouped(pages, []);
    } else {
      EmptySectionsAddNothing(pages, ids[1..], id);
      assert (ids + [id])[1..] == ids[1..] + [id];
    }
  }

  lemma FirstSeenStep(pages: seq<Page>)
    requires pages != []
    ensures var ids, section := FirstSeen(pages[..|pages| - 1]), pages[|pages| - 1].section;
            FirstSeen(pages) == if section in ids then ids else ids + [section]
  {
  }

  lemma UnseenIsEmpty(pages: seq<Page>, id: string)
    requires id !in FirstSeen(pages)
    ensures InSection(pages, id) == []
  {
    SectionsAreDistinct(pages);
    SectionMembers(pages, id);
    if InSection(pages, id) != [] {
      assert InSection(pages, id)[0] in InSection(pages, id);
    }
  }

  lemma NothingToGroup()
    ensures Regrouped([], FirstSeen([])) == []
  {
  }

  /** Grouping is a partition: every task page lands in exactly one section, as often as it occurs. */
  lemma {:induction false} GroupingIsPartition(pages: seq<Page>)
    ensures multiset(Regrouped(pages, FirstSeen(pages))) == multiset(pages)
  {
    hide InSection, Regrouped, FirstSeen, Distinct;
    if pages == [] {
      NothingToGroup();
    } else {
      var init, last := pages[..|pages| - 1], pages[|pages| - 1];
      GroupingIsPartition(init);
      FirstSeenStep(pages);
      SectionsAreDistinct(pages);
      RegroupingAddsOne(pages, FirstSeen(pages));
      assert pages == init + [last];
      assert last in pages;
      if last.section !in FirstSeen(init) {
        UnseenIsEmpty(init, last.section);
        EmptySectionsAddNothing(init, FirstSeen(init), last.section);
      }
    }
  }

  // ----- section statuses (questions hidden) -----

  datatype Status = Completed | InProgress | NotStarted | CannotStart | CannotContinue

  function Applicable(m: FormModel, state: FormState, pages: seq<Page>): seq<Page> {
    if pages == [] then []
    else (if PageCompletion(m, pages[0], state) != Hidden then [pages[0]] else []) + Applicable(m, state, pages[1..])
  }

  function CompletedOf(m: FormModel, state: FormState, pages: seq<Page>): (r: seq<Page>)
    ensures |r| <= |pages|
  {
    if pages == [] then []
    else (if PageCompletion(m, pages[0], state) == Complete then [pages[0]] else []) + CompletedOf(m, state, pages[1..])
  }

  /** No page is incomplete. */
  ghost predicate AllDone(m: FormModel, state: FormState, pages: seq<Page>) {
    forall p :: p in pages ==> PageCompletion(m, p, state) != Incomplete
  }

  lemma {:induction false} CountsMeanAllDone(m: FormModel, state: FormState, pages: seq<Page>)
    ensures |CompletedOf(m, state, Applicable(m, state, pages))| == |Applicable(m, state, pages)|
            <==> AllDone(m, state, pages)
  {
    if pages != [] {
      hide PageCompletion;
      var rest := Applicable(m, state, pages[1..]);
      CountsMeanAllDone(m, state, pages[1..]);
      assert AllDone(m, state, pages)
             <==> PageCompletion(m, pages[0], state) != Incomplete && AllDone(m, state, pages[1..]) by {
        assert pages == [pages[0]] + pages[1..];
      }
      CountHead(m, state, pages[0], rest);
      assert Applicable(m, state, pages)
             == if PageCompletion(m, pages[0], state) != Hidden then [pages[0]] + rest else rest;
    }
  }

  lemma CountHead(m: FormModel, state: FormState, page: Page, rest: seq<Page>)
    ensures |CompletedOf(m, state, [page] + rest)|
            == |CompletedOf(m, state, rest)| + (if PageCompletion(m, page, state) == Complete then 1 else 0)
  {
    hide PageCompletion;
    assert ([page] + rest)[1..] == rest;
  }

  lemma {:induction false} ApplicableMembers(m: FormModel, state: FormState, pages: seq<Page>)
    ensures forall p :: p in Applicable(m, state, pages) <==> p in pages && PageCompletion(m, p, state) != Hidden
  {
    if pages != [] {
      hide PageCompletion;
      ApplicableMembers(m, state, pages[1..]);
      assert pages == [pages[0]] + pages[1..];
    }
  }

  /** Every section before `n` is done. */
  ghost predicate PreviousDone(m: FormModel, state: FormState, groups: seq<seq<Page>>, n: nat)
    requires n <= |groups|
  {
    forall i :: 0 <= i < n ==> AllDone(m, state, groups[i])
  }

  method ArePreviousTaskPagesCompleted(m: FormModel, state: FormState, groups: seq<seq<Page>>, n: nat)
    returns (done: bool)
    requires n <= |groups|
    ensures done == PreviousDone(m, state, groups, n)
  {
    hide PageCompletion;
    var i := 0;
    while i < n
      invariant 0 <= i <= n && PreviousDone(m, state, groups, i)
    {
      var applicable := Applicable(m, state, groups[i]);
      ApplicableMembers(m, state, groups[i]);
      if !(forall p :: p in applicable ==> PageCompletion(m, p, state) == Complete) {
        return false;
      }
      i := i + 1;
    }
    done := true;
  }

  ghost function SectionStatus(m: FormModel, state: FormState, groups: seq<seq<Page>>, n: nat): Status
    requires n < |groups|
  {
    var applicable := Applicable(m, state, groups[n]);
    var completed := CompletedOf(m, state, applicable);
    var open := PreviousDone(m, state, groups, n);
    if applicable == [] || |completed| == |applicable| then if open then Completed else CannotContinue
    else if |completed| > 0 then if open then InProgress else CannotContinue
    else if open then NotStarted else CannotStart
  }

  function IndexOf<T(==)>(s: seq<T>, x: T): (i: nat)
    requires x in s
    ensures i < |s| && s[i] == x && forall j :: 0 <= j < i ==> s[j] != x
  {
    if s[0] == x then 0 else 1 + IndexOf(s[1..], x)
  }

  /** The section is found again by its id. */
  method GetTaskStatus(m: FormModel, state: FormState, ids: seq<string>, groups: seq<seq<Page>>, id: string)
    returns (status: Status)
    requires |ids| == |groups| && id in ids
    ensures status == SectionStatus(m, state, groups, IndexOf(ids, id))
  {
    var n := IndexOf(ids, id);
    var applicable := Applicable(m, state, groups[n]);
    var completed := CompletedOf(m, state, applicable);
    var open := ArePreviousTaskPagesCompleted(m, state, groups, n);
    if |applicable| == 0 || |completed| == |applicable| {
      return if open then Completed else CannotContinue;
    }
    if |completed| > 0 {
      return if open then InProgress else CannotContinue;
    }
    status := if open then NotStarted else CannotStart;
  }

  datatype Item = Item(title: string, status: Status, href: Option<string>)

  function Title(m: FormModel, id: string): string {
    if id in m.titles then m.titles[id] else ""
  }

  function SectionLink(m: FormModel, pages: seq<Page>, status: Status): Option<string>
    requires pages != []
  {
    var target := if status == InProgress then pages[|pages| - 1] else pages[0];
    if status == CannotStart || status == CannotContinue || target.path == "" then None
    else Some(m.basePath + target.path)
  }

  function Groups(m: FormModel): seq<seq<Page>> {
    var ids := FirstSeen(TaskPages(m));
    seq(|ids|, i requires 0 <= i < |ids| => InSection(TaskPages(m), ids[i]))
  }

  /** The items of the list with questions hidden, one per section. */
  ghost predicate ShowsSections(m: FormModel, state: FormState, items: seq<Item>) {
    && |items| == |Groups(m)|
    && forall n :: 0 <= n < |items| ==>
         Groups(m)[n] != [] && IsSectionItem(m, state, n, items[n])
  }

  ghost predicate IsSectionItem(m: FormModel, state: FormState, n: nat, item: Item)
    requires n < |Groups(m)| && Groups(m)[n] != []
  {
    && item.title == Title(m, FirstSeen(TaskPages(m))[n])
    && item.status == SectionStatus(m, state, Groups(m), n)
    && item.href == SectionLink(m, Groups(m)[n], item.status)
  }

  method BuildTaskListDataHideQuestions(m: FormModel, state: FormState) returns (items: seq<Item>)
    ensures ShowsSections(m, state, items)
  {
    hide SectionStatus, SectionLink, Title, InSection, FirstSeen, TaskPages;
    var pages := TaskPages(m);
    var ids, byId := GroupBySection(pages);
    SectionsAreDistinct(pages);
    var groups := seq(|ids|, i requires 0 <= i < |ids| => byId[ids[i]]);
    assert groups == Groups(m);
    items := [];
    var n := 0;
    while n < |ids|
      invariant 0 <= n <= |ids| && |items| == n
      invariant forall i :: 0 <= i < n ==> groups[i] != [] && IsSectionItem(m, state, i, items[i])
    {
      var status := GetTaskStatus(m, state, ids, groups, ids[n]);
      items := items + [Item(Title(m, ids[n]), status, SectionLink(m, groups[n], status))];
      n := n + 1;
    }
  }

  // ----- the completion counter -----

  datatype Stats = Stats(completed: nat, total: nat, isComplete: bool)

  function CompletionStats(m: FormModel, state: FormState): Stats {
    var applicable := Applicable(m, state, TaskPages(m));
    var completed := |CompletedOf(m, state, applicable)|;
    Stats(completed, |applicable|, completed == |applicable|)
  }

  lemma {:induction false} CompletedMembers(m: FormModel, state: FormState, pages: seq<Page>)
    ensures forall p :: p in CompletedOf(m, state, pages) <==> p in pages && PageCompletion(m, p, state) == Complete
  {
    hide PageCompletion;
    if pages != [] {
      CompletedMembers(m, state, pages[1..]);
      assert pages == [pages[0]] + pages[1..];
    }
  }

  /** Some page of the section is complete. */
  ghost predicate HasCompletePage(m: FormModel, state: FormState, pages: seq<Page>) {
    exists p :: p in pages && PageCompletion(m, p, state) == Complete
  }

  /** The status of a section, read off its pages and those of the sections before it. */
  lemma SectionStatusReason(m: FormModel, state: FormState, groups: seq<seq<Page>>, n: nat)
    requires n < |groups|
    ensures SectionStatus(m, state, groups, n)
            == if AllDone(m, state, groups[n])
               then if PreviousDone(m, state, groups, n) then Completed else CannotContinue
               else if HasCompletePage(m, state, groups[n])
               then if PreviousDone(m, state, groups, n) then InProgress else CannotContinue
               else if PreviousDone(m, state, groups, n) then NotStarted else CannotStart
  {
    hide PageCompletion, PreviousDone, AllDone;
    var applicable := Applicable(m, state, groups[n]);
    var completed := CompletedOf(m, state, applicable);
    CountsMeanAllDone(m, state, groups[n]);
    ApplicableMembers(m, state, groups[n]);
    CompletedMembers(m, state, applicable);
    if completed != [] {
      assert completed[0] in completed;
    }
  }

  // ----- theorems, questions hidden -----

  /** Section `k` is the first that is not done. */
  ghost predicate IsOpenSection(m: FormModel, state: FormState, groups: seq<seq<Page>>, k: nat) {
    k <= |groups| && PreviousDone(m, state, groups, k) && (k < |groups| ==> !AllDone(m, state, groups[k]))
  }

  lemma {:induction false} OpenSectionExists(m: FormModel, state: FormState, groups: seq<seq<Page>>, from: nat)
    requires from <= |groups| && PreviousDone(m, state, groups, from)
    ensures exists k: nat :: IsOpenSection(m, state, groups, k)
    decreases |groups| - from
  {
    if from < |groups| && AllDone(m, state, groups[from]) {
      OpenSectionExists(m, state, groups, from + 1);
    } else {
      assert IsOpenSection(m, state, groups, from);
    }
  }

  lemma StatusAroundOpen(m: FormModel, state: FormState, groups: seq<seq<Page>>, k: nat, n: nat)
    requires IsOpenSection(m, state, groups, k) && n < |groups|
    ensures var status := SectionStatus(m, state, groups, n);
            if n < k then status == Completed
            else if n == k then status == InProgress || status == NotStarted
            else status == CannotStart || status == CannotContinue
  {
    hide AllDone;
    CountsMeanAllDone(m, state, groups[n]);
    if n > k {
      assert !AllDone(m, state, groups[k]);
    }
  }

  lemma SectionsAreDoneTogether(m: FormModel, state: FormState)
    ensures PreviousDone(m, state, Groups(m), |Groups(m)|) <==> AllDone(m, state, TaskPages(m))
  {
    hide PageCompletion;
    var pages := TaskPages(m);
    var ids := FirstSeen(pages);
    SectionsAreDistinct(pages);
    if PreviousDone(m, state, Groups(m), |Groups(m)|) {
      forall p | p in pages ensures PageCompletion(m, p, state) != Incomplete {
        var i := IndexOf(ids, p.section);
        SectionMembers(pages, p.section);
        assert p in Groups(m)[i] && AllDone(m, state, Groups(m)[i]);
      }
    }
    if AllDone(m, state, pages) {
      forall i | 0 <= i < |ids| ensures AllDone(m, state, Groups(m)[i]) {
        SectionMembers(pages, ids[i]);
      }
    }
  }

  /** The statuses are a run of completed, then at most one section in progress or not started, then only blocked ones;
      links are exactly on the run and that section; and the counter says complete exactly when all are completed. */
  lemma SectionStatusShape(m: FormModel, state: FormState, items: seq<Item>)
    requires forall p :: p in TaskPages(m) ==> p.path != ""
    requires ShowsSections(m, state, items)
    ensures exists k: nat :: k <= |items|
              && (forall n :: 0 <= n < k ==> items[n].status == Completed)
              && (k < |items| ==> items[k].status == InProgress || items[k].status == NotStarted)
              && (forall n :: k < n < |items| ==> items[n].status == CannotStart || items[n].status == CannotContinue)
              && (forall n :: 0 <= n < |items| ==> (items[n].href.Some? <==> n <= k))
    ensures CompletionStats(m, state).isComplete <==> forall n :: 0 <= n < |items| ==> items[n].status == Completed
  {
    hide SectionStatus, AllDone, Groups, TaskPages, FirstSeen;
    OpenSectionExists(m, state, Groups(m), 0);
    var k: nat :| IsOpenSection(m, state, Groups(m), k);
    forall n | 0 <= n < |items|
      ensures items[n].href.Some? <==> n <= k
      ensures items[n].status == Completed <==> n < k
      ensures n == k ==> items[n].status == InProgress || items[n].status == NotStarted
      ensures n > k ==> items[n].status == CannotStart || items[n].status == CannotContinue
    {
      StatusAroundOpen(m, state, Groups(m), k, n);
      GroupPages(m, n);
      assert IsSectionItem(m, state, n, items[n]);
      assert Groups(m)[n][0] in Groups(m)[n] && Groups(m)[n][|Groups(m)[n]| - 1] in Groups(m)[n];
    }
    SectionsAreDoneTogether(m, state);
    CountsMeanAllDone(m, state, TaskPages(m));
    if k < |items| {
      assert items[k].status != Completed;
    }
  }

  /** The link of a section in progress goes to its last page, of any other linked section to its first. */
  lemma SectionLinkTargets(m: FormModel, state: FormState, items: seq<Item>, n: nat)
    requires WellNumbered(m) && ShowsSections(m, state, items) && n < |items| && items[n].href.Some?
    ensures exists p :: p in Groups(m)[n] && items[n].href == Some(m.basePath + p.path)
              && forall q :: q in Groups(m)[n] ==> if items[n].status == InProgress then q.at <= p.at else p.at <= q.at
  {
    hide SectionStatus;
    var group := Groups(m)[n];
    assert IsSectionItem(m, state, n, items[n]);
    TaskPagesAscend(m);
    assert group == SectionPages(m, n);
    var p := if items[n].status == InProgress then group[|group| - 1] else group[0];
    assert p in group;
    forall q | q in group ensures if items[n].status == InProgress then q.at <= p.at else p.at <= q.at {
      var i :| 0 <= i < |group| && group[i] == q;
    }
  }

  lemma GroupPages(m: FormModel, n: nat)
    requires n < |Groups(m)|
    ensures forall p :: p in Groups(m)[n] ==> p in TaskPages(m)
  {
    SectionMembers(TaskPages(m), FirstSeen(TaskPages(m))[n]);
  }

  // ----- questions shown -----

  ghost predicate AllPreviousCompleted(m: FormModel, state: FormState, pages: seq<Page>, n: nat)
    requires n <= |pages|
  {
    forall j :: 0 <= j < n ==> PageCompletion(m, pages[j], state) != Incomplete && !TriggersExit(m, pages[j], state)
  }

  datatype Question = Question(page: Page, status: Status, href: Option<string>)

  ghost function QuestionAt(m: FormModel, state: FormState, pages: seq<Page>, n: nat): Option<Question>
    requires n < |pages|
  {
    var href := Some(m.basePath + pages[n].path);
    match PageCompletion(m, pages[n], state)
    case Hidden => None
    case Complete => Some(Question(pages[n], Completed, href))
    case Incomplete =>
      if AllPreviousCompleted(m, state, pages, n) then Some(Question(pages[n], NotStarted, href))
      else Some(Question(pages[n], CannotStart, None))
  }

  method AreAllPreviousTasksCompleted(m: FormModel, state: FormState, pages: seq<Page>, page: Page) returns (done: bool)
    requires page in pages
    ensures done == AllPreviousCompleted(m, state, pages, IndexOf(pages, page))
  {
    hide PageCompletion, TriggersExit;
    var n := IndexOf(pages, page);
    var j := 0;
    while j < n
      invariant 0 <= j <= n && AllPreviousCompleted(m, state, pages, j)
    {
      if PageCompletion(m, pages[j], state) == Incomplete {
        return false;
      }
      var exits := ComputeTriggersExit(m, pages[j], state);
      if exits {
        return false;
      }
      j := j + 1;
    }
    done := true;
  }

  method CreateTaskItem(m: FormModel, state: FormState, pages: seq<Page>, page: Page)
    returns (question: Option<Question>)
    requires page in pages
    ensures question == QuestionAt(m, state, pages, IndexOf(pages, page))
  {
    hide PageCompletion, TriggersExit;
    var completed := PageCompletion(m, page, state);
    var href := m.basePath + page.path;
    if completed == Hidden {
      return None;
    }
    if completed == Complete {
      return Some(Question(page, Completed, Some(href)));
    }
    if IndexOf(pages, page) > 0 {
      var done := AreAllPreviousTasksCompleted(m, state, pages, page);
      if !done {
        return Some(Question(page, CannotStart, None));
      }
    }
    question := Some(Question(page, NotStarted, Some(href)));
  }

  /** The questions of a section, in order, without the hidden ones. */
  ghost function Questions(m: FormModel, state: FormState, pages: seq<Page>, group: seq<Page>): seq<Question>
  {
    if group == [] then []
    else
      var page := group[|group| - 1];
      var q := if page in pages then QuestionAt(m, state, pages, IndexOf(pages, page)) else None;
      Questions(m, state, pages, group[..|group| - 1]) + (if q.Some? then [q.value] else [])
  }

  datatype Task = Task(title: string, items: seq<Question>)

  function SectionPages(m: FormModel, t: nat): seq<Page>
    requires t < |FirstSeen(TaskPages(m))|
  {
    InSection(TaskPages(m), FirstSeen(TaskPages(m))[t])
  }

  /** The list with questions shown: one task per section, one item per question. */
  ghost predicate ShowsQuestions(m: FormModel, state: FormState, tasks: seq<Task>) {
    && |tasks| == |FirstSeen(TaskPages(m))|
    && forall t :: 0 <= t < |tasks| ==>
         && tasks[t].title == Title(m, FirstSeen(TaskPages(m))[t])
         && tasks[t].items == Questions(m, state, TaskPages(m), SectionPages(m, t))
  }

  method BuildTaskListData(m: FormModel, state: FormState) returns (tasks: seq<Task>)
    ensures ShowsQuestions(m, state, tasks)
  {
    hide Questions, Title;
    var pages := TaskPages(m);
    var ids, groups := GroupBySection(pages);
    tasks := [];
    var t := 0;
    while t < |ids|
      invariant 0 <= t <= |ids| && |tasks| == t
      invariant forall i :: 0 <= i < t ==>
                  tasks[i].title == Title(m, ids[i]) && tasks[i].items == Questions(m, state, pages, SectionPages(m, i))
    {
      SectionMembers(pages, ids[t]);
      var items := BuildSectionItems(m, state, pages, groups[ids[t]]);
      tasks := tasks + [Task(Title(m, ids[t]), items)];
      t := t + 1;
    }
  }

  method BuildSectionItems(m: FormModel, state: FormState, pages: seq<Page>, group: seq<Page>)
    returns (items: seq<Question>)
    requires forall p :: p in group ==> p in pages
    ensures items == Questions(m, state, pages, group)
  {
    hide QuestionAt;
    items := [];
    var i := 0;
    while i < |group|
      invariant 0 <= i <= |group| && items == Questions(m, state, pages, group[..i])
    {
      assert group[..i + 1][..i] == group[..i] && group[i] in group;
      var q := CreateTaskItem(m, state, pages, group[i]);
      if q.Some? {
        items := items + [q.value];
      }
      i := i + 1;
    }
    assert group[..|group|] == group;
  }

  // ----- theorems, questions shown -----

  /** An item is the question of a page of the group. */
  ghost predicate StandsFor(m: FormModel, state: FormState, pages: seq<Page>, group: seq<Page>, item: Question) {
    item.page in group && item.page in pages && QuestionAt(m, state, pages, IndexOf(pages, item.page)) == Some(item)
  }

  ghost predicate InPageOrder(items: seq<Question>) {
    forall i, j :: 0 <= i < j < |items| ==> items[i].page.at < items[j].page.at
  }

  ghost predicate AllStandFor(
    m: FormModel, state: FormState, pages: seq<Page>, group: seq<Page>, items: seq<Question>) {
    && (forall i :: 0 <= i < |items| ==> StandsFor(m, state, pages, group, items[i]))
    && (forall q :: StandsFor(m, state, pages, group, q) ==> q in items)
  }

  /** Displayed items are exactly the questions of the section's pages, in page order. */
  lemma {:induction false} QuestionsFollowPages(m: FormModel, state: FormState, pages: seq<Page>, group: seq<Page>)
    requires (forall p :: p in group ==> p in pages) && Ascending(group)
    ensures InPageOrder(Questions(m, state, pages, group))
    ensures AllStandFor(m, state, pages, group, Questions(m, state, pages, group))
  {
    if group != [] {
      var init, last := group[..|group| - 1], group[|group| - 1];
      InSplit(group);
      QuestionsFollowPages(m, state, pages, init);
      var before := Questions(m, state, pages, init);
      QuestionsExtend(m, state, pages, init, last, before);
      assert group == init + [last];
    }
  }

  lemma QuestionsExtend(
    m: FormModel, state: FormState, pages: seq<Page>, init: seq<Page>, last: Page, before: seq<Question>)
    requires last in pages && Ascending(init + [last])
    requires InPageOrder(before) && AllStandFor(m, state, pages, init, before)
    ensures var q := QuestionAt(m, state, pages, IndexOf(pages, last));
            var items := before + if q.Some? then [q.value] else [];
            InPageOrder(items) && AllStandFor(m, state, pages, init + [last], items)
  {
    hide PageCompletion, AllPreviousCompleted;
    var q := QuestionAt(m, state, pages, IndexOf(pages, last));
    var items := before + (if q.Some? then [q.value] else []);
    forall i | 0 <= i < |before|
      ensures before[i].page.at < last.at && StandsFor(m, state, pages, init + [last], before[i])
    {
      assert StandsFor(m, state, pages, init, before[i]);
      var k :| 0 <= k < |init| && init[k] == before[i].page;
      assert (init + [last])[k] == init[k] && (init + [last])[|init|] == last;
    }
    forall r | StandsFor(m, state, pages, init + [last], r) ensures r in items {
      if r.page in init {
        assert StandsFor(m, state, pages, init, r);
      }
    }
  }

  lemma TaskPagesAscend(m: FormModel)
    requires WellNumbered(m)
    ensures Ascending(TaskPages(m))
    ensures forall t :: 0 <= t < |FirstSeen(TaskPages(m))| ==> Ascending(SectionPages(m, t))
  {
    TaskPagesAreOrdered(m.pages);
    forall t | 0 <= t < |FirstSeen(TaskPages(m))| ensures Ascending(SectionPages(m, t)) {
      SectionIsSubsequence(TaskPages(m), FirstSeen(TaskPages(m))[t]);
    }
  }

  predicate IsItem(tasks: seq<Task>, t: nat, i: nat) {
    t < |tasks| && i < |tasks[t].items|
  }

  /** A shown item stands for the task page at position `n`. */
  lemma ShownItem(m: FormModel, state: FormState, tasks: seq<Task>, t: nat, i: nat) returns (n: nat)
    requires WellNumbered(m) && ShowsQuestions(m, state, tasks) && IsItem(tasks, t, i)
    ensures n < |TaskPages(m)| && tasks[t].items[i].page == TaskPages(m)[n]
    ensures QuestionAt(m, state, TaskPages(m), n) == Some(tasks[t].items[i])
    ensures TaskPages(m)[n].section == FirstSeen(TaskPages(m))[t]
  {
    hide QuestionAt, Questions;
    TaskPagesAscend(m);
    SectionMembers(TaskPages(m), FirstSeen(TaskPages(m))[t]);
    QuestionsFollowPages(m, state, TaskPages(m), SectionPages(m, t));
    assert StandsFor(m, state, TaskPages(m), SectionPages(m, t), tasks[t].items[i]);
    n := IndexOf(TaskPages(m), tasks[t].items[i].page);
  }

  lemma QuestionKeepsPage(m: FormModel, state: FormState, pages: seq<Page>, n: nat)
    requires n < |pages| && QuestionAt(m, state, pages, n).Some?
    ensures QuestionAt(m, state, pages, n).value.page == pages[n]
  {
    hide PageCompletion, AllPreviousCompleted;
  }

  /** A task page with a question is shown. */
  lemma ShownPage(m: FormModel, state: FormState, tasks: seq<Task>, n: nat) returns (t: nat, i: nat)
    requires WellNumbered(m) && ShowsQuestions(m, state, tasks) && n < |TaskPages(m)|
    requires QuestionAt(m, state, TaskPages(m), n).Some?
    ensures IsItem(tasks, t, i) && Some(tasks[t].items[i]) == QuestionAt(m, state, TaskPages(m), n)
  {
    hide QuestionAt, Questions;
    TaskPagesAscend(m);
    var pages := TaskPages(m);
    SectionsAreDistinct(pages);
    assert pages[n] in pages;
    t := IndexOf(FirstSeen(pages), pages[n].section);
    SectionMembers(pages, pages[n].section);
    QuestionsFollowPages(m, state, pages, SectionPages(m, t));
    assert IndexOf(pages, pages[n]) == n;
    QuestionKeepsPage(m, state, pages, n);
    assert StandsFor(m, state, pages, SectionPages(m, t), QuestionAt(m, state, pages, n).value);
    i :| 0 <= i < |tasks[t].items| && tasks[t].items[i] == QuestionAt(m, state, pages, n).value;
  }

  /** The position of the question to answer next: the first incomplete page, with no exit triggered before it. */
  ghost predicate IsNextQuestion(m: FormModel, state: FormState, n: nat) {
    n < |TaskPages(m)| && PageCompletion(m, TaskPages(m)[n], state) == Incomplete
    && AllPreviousCompleted(m, state, TaskPages(m), n)
  }

  /** A shown list links at most one question as not started, and every applicable page before it is complete. */
  lemma NextQuestionIsUnique(m: FormModel, state: FormState, tasks: seq<Task>, t: nat, i: nat, u: nat, j: nat)
    requires WellNumbered(m) && ShowsQuestions(m, state, tasks) && IsItem(tasks, t, i) && IsItem(tasks, u, j)
    requires tasks[t].items[i].status == NotStarted && tasks[u].items[j].status == NotStarted
    ensures t == u && i == j
    ensures forall p :: p in TaskPages(m) && p.at < tasks[t].items[i].page.at ==>
              PageCompletion(m, p, state) != Incomplete
  {
    hide PageCompletion, TriggersExit, Questions, FirstSeen, InSection, TaskPages;
    var pages := TaskPages(m);
    TaskPagesAscend(m);
    var n := ShownItem(m, state, tasks, t, i);
    var k := ShownItem(m, state, tasks, u, j);
    assert n == k;
    SectionsAreDistinct(pages);
    SectionMembers(pages, FirstSeen(pages)[t]);
    QuestionsFollowPages(m, state, pages, SectionPages(m, t));
    forall p | p in pages && p.at < pages[n].at ensures PageCompletion(m, p, state) != Incomplete {
      assert IndexOf(pages, p) < n;
    }
  }

  /** There is such a question exactly when the first incomplete page has no triggered exit before it. */
  lemma NextQuestionExists(m: FormModel, state: FormState, tasks: seq<Task>)
    requires WellNumbered(m) && ShowsQuestions(m, state, tasks)
    ensures (exists t: nat, i: nat :: IsItem(tasks, t, i) && tasks[t].items[i].status == NotStarted)
            <==> exists n: nat :: IsNextQuestion(m, state, n)
  {
    hide PageCompletion, TriggersExit, Questions;
    if n: nat :| IsNextQuestion(m, state, n) {
      var t, i := ShownPage(m, state, tasks, n);
      assert IsItem(tasks, t, i) && tasks[t].items[i].status == NotStarted;
    }
    if t: nat, i: nat :| IsItem(tasks, t, i) && tasks[t].items[i].status == NotStarted {
      var n := ShownItem(m, state, tasks, t, i);
      assert IsNextQuestion(m, state, n);
    }
  }

  lemma {:induction false} FirstIncompleteIsNext(m: FormModel, state: FormState, n: nat)
    requires n < |TaskPages(m)| && PageCompletion(m, TaskPages(m)[n], state) == Incomplete
    requires forall p :: p in TaskPages(m) ==> !TriggersExit(m, p, state)
    ensures exists k: nat :: IsNextQuestion(m, state, k)
  {
    hide PageCompletion, TriggersExit;
    if AllPreviousCompleted(m, state, TaskPages(m), n) {
      assert IsNextQuestion(m, state, n);
    } else {
      var j :| 0 <= j < n && (PageCompletion(m, TaskPages(m)[j], state) == Incomplete
                              || TriggersExit(m, TaskPages(m)[j], state));
      assert TaskPages(m)[j] in TaskPages(m);
      FirstIncompleteIsNext(m, state, j);
    }
  }

  /** With no exit triggered and something incomplete, the list shows a question to answer next. */
  lemma UnfinishedFormHasNextQuestion(m: FormModel, state: FormState, tasks: seq<Task>)
    requires WellNumbered(m) && ShowsQuestions(m, state, tasks)
    requires forall p :: p in TaskPages(m) ==> !TriggersExit(m, p, state)
    requires !CompletionStats(m, state).isComplete
    ensures exists t: nat, i: nat :: IsItem(tasks, t, i) && tasks[t].items[i].status == NotStarted
  {
    hide PageCompletion, TriggersExit, Questions;
    CountsMeanAllDone(m, state, TaskPages(m));
    var p :| p in TaskPages(m) && PageCompletion(m, p, state) == Incomplete;
    FirstIncompleteIsNext(m, state, IndexOf(TaskPages(m), p));
    NextQuestionExists(m, state, tasks);
  }

  /** Some task page triggers an exit exactly when an open exit page belongs to a task page; an exit page behind a page
      of an excluded kind is never seen. */
  lemma ExitsAreSeenExactlyWhenOwned(m: FormModel, state: FormState)
    requires WellNumbered(m) && UniquePaths(m)
    ensures (exists p :: p in TaskPages(m) && TriggersExit(m, p, state)) <==>
            exists i: nat :: IsOpenExit(m, state, i) && OwnedByTaskPage(m, i)
  {
    hide TriggersExit, IsOpenExit, OwnedByTaskPage;
    if p :| p in TaskPages(m) && TriggersExit(m, p, state) {
      var i := OwnedExit(m, p, state);
    }
    if i: nat :| IsOpenExit(m, state, i) && OwnedByTaskPage(m, i) {
      var p := ExitOwner(m, state, i);
    }
  }

  /** An exit page right behind a land-grant page: its condition holds and no task page triggers it. */
  lemma ExitBehindExcludedPageIsUnseen(state: FormState)
    ensures var m := FormModel(
              [Page(0, "/a", "s", "SelectActionsPageController", ""), Page(1, "/x", "", "TerminalPageController", "c")],
              map[], map["c" := (s: FormState) => true], map["s" := "S"], "/f");
            IsOpenExit(m, state, 1) && forall p :: p in TaskPages(m) ==> !TriggersExit(m, p, state)
  {
    var m := FormModel(
      [Page(0, "/a", "s", "SelectActionsPageController", ""), Page(1, "/x", "", "TerminalPageController", "c")],
      map[], map["c" := (s: FormState) => true], map["s" := "S"], "/f");
    assert m.pages[..1] == [m.pages[0]] && [m.pages[0]][..0] == [];
    assert TaskPagesOf([m.pages[0]]) == [];
    assert TaskPages(m) == [];
  }

  /** The exit page a task page triggers. */
  lemma OwnedExit(m: FormModel, p: Page, state: FormState) returns (i: nat)
    requires WellNumbered(m) && UniquePaths(m) && p in TaskPages(m) && TriggersExit(m, p, state)
    ensures IsOpenExit(m, state, i) && OwnedByTaskPage(m, i)
  {
    hide TriggersExit, Holds;
    TaskPagesHaveSections(m, p);
    PathIsFound(m.pages, p.at);
    ExitBelongsToLastSection(m, p, state);
    i :| IsOpenExit(m, state, i) && LastSection(m.pages, i) == p.at;
  }

  /** The task page an exit page belongs to. */
  lemma ExitOwner(m: FormModel, state: FormState, i: nat) returns (p: Page)
    requires WellNumbered(m) && UniquePaths(m) && IsOpenExit(m, state, i) && OwnedByTaskPage(m, i)
    ensures p in TaskPages(m) && TriggersExit(m, p, state) && p.at < i
  {
    hide TriggersExit, IsOpenExit;
    p := m.pages[LastSection(m.pages, i)];
    TaskPagesHaveSections(m, p);
    PathIsFound(m.pages, p.at);
    ExitBelongsToLastSection(m, p, state);
  }

  ghost predicate OwnedByTaskPage(m: FormModel, i: nat) {
    i < |m.pages| && LastSection(m.pages, i) >= 0 && IsTaskPage(m.pages[LastSection(m.pages, i)])
  }

  /** After an open exit page of a task page nothing incomplete is linked. */
  lemma OpenExitEndsJourney(m: FormModel, state: FormState, tasks: seq<Task>, exit: nat, t: nat, i: nat)
    requires WellNumbered(m) && UniquePaths(m) && ShowsQuestions(m, state, tasks)
    requires IsOpenExit(m, state, exit) && OwnedByTaskPage(m, exit)
    requires IsItem(tasks, t, i) && tasks[t].items[i].page.at > exit
    ensures PageCompletion(m, tasks[t].items[i].page, state) == Incomplete ==> tasks[t].items[i].href.None?
  {
    hide TriggersExit, IsOpenExit, OwnedByTaskPage, PageCompletion, ShowsQuestions;
    var p := ExitOwner(m, state, exit);
    ExitBlocksLaterPages(m, state, tasks, p, t, i);
  }

  /** Once a page's answers trigger an exit page, no incomplete later page is linked. */
  lemma ExitBlocksLaterPages(m: FormModel, state: FormState, tasks: seq<Task>, exit: Page, t: nat, i: nat)
    requires WellNumbered(m) && ShowsQuestions(m, state, tasks) && exit in TaskPages(m)
    requires TriggersExit(m, exit, state)
    requires IsItem(tasks, t, i) && tasks[t].items[i].page.at > exit.at
    ensures PageCompletion(m, tasks[t].items[i].page, state) == Incomplete ==> tasks[t].items[i].href.None?
  {
    hide PageCompletion, TriggersExit, Questions;
    TaskPagesAscend(m);
    var n := ShownItem(m, state, tasks, t, i);
    assert IndexOf(TaskPages(m), exit) < n;
  }

  /** The counter agrees with the shown list: complete exactly when every shown question is completed. */
  lemma CounterAgreesWithQuestions(m: FormModel, state: FormState, tasks: seq<Task>)
    requires WellNumbered(m) && ShowsQuestions(m, state, tasks)
    ensures CompletionStats(m, state).isComplete
            <==> forall t: nat, i: nat :: IsItem(tasks, t, i) ==> tasks[t].items[i].status == Completed
  {
    hide PageCompletion, TriggersExit, Questions;
    CountsMeanAllDone(m, state, TaskPages(m));
    if !CompletionStats(m, state).isComplete {
      var p :| p in TaskPages(m) && PageCompletion(m, p, state) == Incomplete;
      var t, i := ShownPage(m, state, tasks, IndexOf(TaskPages(m), p));
      assert IsItem(tasks, t, i) && tasks[t].items[i].status != Completed;
    } else {
      forall t: nat, i: nat | IsItem(tasks, t, i) ensures tasks[t].items[i].status == Completed {
        var n := ShownItem(m, state, tasks, t, i);
        assert TaskPages(m)[n] in TaskPages(m);
      }
    }
  }

  // ----- the two modes -----

  /** The sections of the task pages are not interleaved. */
  ghost predicate Contiguous(m: FormModel) {
    var pages, ids := TaskPages(m), FirstSeen(TaskPages(m));
    forall a, b, i, j ::
      (&& 0 <= a < b < |pages| && 0 <= i < |ids| && 0 <= j < |ids|
       && pages[a].section == ids[i] && pages[b].section == ids[j])
      ==> i <= j
  }

  /** Page `n` is the first incomplete task page. */
  ghost predicate FirstIncomplete(m: FormModel, state: FormState, n: nat) {
    && n < |TaskPages(m)| && PageCompletion(m, TaskPages(m)[n], state) == Incomplete
    && forall j :: 0 <= j < n ==> PageCompletion(m, TaskPages(m)[j], state) != Incomplete
  }

  lemma {:induction false} FirstIncompleteExists(m: FormModel, state: FormState, at: nat) returns (n: nat)
    requires at < |TaskPages(m)| && PageCompletion(m, TaskPages(m)[at], state) == Incomplete
    ensures n <= at && FirstIncomplete(m, state, n)
  {
    hide PageCompletion, TaskPages;
    if j :| 0 <= j < at && PageCompletion(m, TaskPages(m)[j], state) == Incomplete {
      n := FirstIncompleteExists(m, state, j);
    } else {
      n := at;
    }
  }

  /** The section is in progress or not started. */
  predicate IsOffered(item: Item) {
    item.status == InProgress || item.status == NotStarted
  }

  lemma OfferedIsOpen(m: FormModel, state: FormState, items: seq<Item>, k: nat)
    requires ShowsSections(m, state, items) && k < |items|
    ensures IsOffered(items[k]) <==> IsOpenSection(m, state, Groups(m), k)
  {
    hide SectionStatus, Groups, IsOpenSection;
    OpenSectionExists(m, state, Groups(m), 0) by {
      NothingBefore(m, state, Groups(m));
    }
    var open: nat :| IsOpenSection(m, state, Groups(m), open);
    StatusAroundOpen(m, state, Groups(m), open, k);
    if IsOpenSection(m, state, Groups(m), k) {
      StatusAroundOpen(m, state, Groups(m), k, k);
    }
    assert IsSectionItem(m, state, k, items[k]);
  }

  lemma NothingBefore(m: FormModel, state: FormState, groups: seq<seq<Page>>)
    ensures PreviousDone(m, state, groups, 0)
  {
  }

  /** Task page `n` lies in section `k`. */
  ghost predicate InThisSection(m: FormModel, n: nat, k: nat) {
    n < |TaskPages(m)| && k < |FirstSeen(TaskPages(m))| && TaskPages(m)[n].section == FirstSeen(TaskPages(m))[k]
  }

  lemma FirstIncompleteIsInOpenSection(m: FormModel, state: FormState, n: nat, k: nat)
    requires Contiguous(m) && FirstIncomplete(m, state, n)
    requires k < |Groups(m)| && InThisSection(m, n, k)
    ensures IsOpenSection(m, state, Groups(m), k)
  {
    hide PageCompletion, FirstSeen, InSection, TaskPages;
    var pages, ids := TaskPages(m), FirstSeen(TaskPages(m));
    SectionMembers(pages, ids[k]);
    SectionsAreDistinct(pages);
    assert pages[n] in Groups(m)[k];
    forall i | 0 <= i < k ensures AllDone(m, state, Groups(m)[i]) {
      SectionMembers(pages, ids[i]);
      forall p | p in Groups(m)[i] ensures PageCompletion(m, p, state) != Incomplete {
        var at := IndexOf(pages, p);
        assert pages[at].section == ids[i] != ids[k];
        assert at < n;
      }
    }
  }

  lemma OpenSectionHoldsFirstIncomplete(m: FormModel, state: FormState, k: nat) returns (n: nat)
    requires Contiguous(m) && k < |Groups(m)| && IsOpenSection(m, state, Groups(m), k)
    ensures FirstIncomplete(m, state, n) && InThisSection(m, n, k)
  {
    hide PageCompletion, FirstSeen, InSection, TaskPages;
    var pages, ids := TaskPages(m), FirstSeen(TaskPages(m));
    SectionsAreDistinct(pages);
    SectionMembers(pages, ids[k]);
    var p :| p in Groups(m)[k] && PageCompletion(m, p, state) == Incomplete;
    var at := IndexOf(pages, p);
    n := FirstIncompleteExists(m, state, at);
    assert pages[n] in pages;
    var i := IndexOf(ids, pages[n].section);
    SectionMembers(pages, ids[i]);
    assert pages[n] in Groups(m)[i];
    assert i >= k;
    if n < at {
      assert pages[n].section == ids[i] && pages[at].section == ids[k];
      assert i <= k;
    }
  }

  /** With questions hidden, and sections not interleaved, a section is offered exactly if the first incomplete page
      lies in it. */
  lemma OfferedSectionHoldsFirstIncomplete(m: FormModel, state: FormState, items: seq<Item>, k: nat)
    requires Contiguous(m) && ShowsSections(m, state, items) && k < |items|
    ensures IsOffered(items[k])
            <==> exists n: nat :: FirstIncomplete(m, state, n) && InThisSection(m, n, k)
  {
    hide FirstIncomplete, IsOpenSection, IsOffered, Contiguous, TaskPages, FirstSeen, SectionStatus;
    OfferedIsOpen(m, state, items, k);
    if IsOpenSection(m, state, Groups(m), k) {
      var n := OpenSectionHoldsFirstIncomplete(m, state, k);
    }
    if n: nat :| FirstIncomplete(m, state, n) && InThisSection(m, n, k) {
      FirstIncompleteIsInOpenSection(m, state, n, k);
    }
  }

  /** No task page before position `n` triggers an exit. */
  ghost predicate NoExitBefore(m: FormModel, state: FormState, n: nat) {
    forall j :: 0 <= j < n && j < |TaskPages(m)| ==> !TriggersExit(m, TaskPages(m)[j], state)
  }

  lemma NextIsFirstIncomplete(m: FormModel, state: FormState, n: nat)
    ensures IsNextQuestion(m, state, n) <==> FirstIncomplete(m, state, n) && NoExitBefore(m, state, n)
  {
    hide PageCompletion, TriggersExit, TaskPages;
  }

  /** The section shows a question to answer next. */
  ghost predicate ShowsNext(tasks: seq<Task>, k: nat) {
    exists i: nat :: IsItem(tasks, k, i) && tasks[k].items[i].status == NotStarted
  }

  lemma NextIsShownInItsSection(m: FormModel, state: FormState, tasks: seq<Task>, n: nat, k: nat)
    requires WellNumbered(m) && ShowsQuestions(m, state, tasks) && IsNextQuestion(m, state, n) && InThisSection(m, n, k)
    ensures ShowsNext(tasks, k)
  {
    hide PageCompletion, TriggersExit, Questions, FirstSeen, TaskPages;
    SectionsAreDistinct(TaskPages(m));
    var t, i := ShownPage(m, state, tasks, n);
    var n' := ShownItem(m, state, tasks, t, i);
    TaskPagesAscend(m);
    assert TaskPages(m)[n'] == TaskPages(m)[n];
    assert t == k;
    assert IsItem(tasks, k, i);
  }

  lemma ShownNextIsNext(m: FormModel, state: FormState, tasks: seq<Task>, k: nat) returns (n: nat)
    requires WellNumbered(m) && ShowsQuestions(m, state, tasks) && ShowsNext(tasks, k)
    ensures IsNextQuestion(m, state, n) && InThisSection(m, n, k)
  {
    hide PageCompletion, TriggersExit, Questions, FirstSeen, TaskPages;
    var i: nat :| IsItem(tasks, k, i) && tasks[k].items[i].status == NotStarted;
    n := ShownItem(m, state, tasks, k, i);
  }

  /** The two modes, with sections not interleaved: a section shows the next question exactly if the other mode offers
      that section and no page before the first incomplete one triggers an exit, which that mode never looks at. */
  lemma ModesAgreeExactlyWithoutExit(
    m: FormModel, state: FormState, items: seq<Item>, tasks: seq<Task>, k: nat)
    requires WellNumbered(m) && Contiguous(m) && ShowsSections(m, state, items) && ShowsQuestions(m, state, tasks)
    requires k < |items|
    ensures ShowsNext(tasks, k) <==>
            IsOffered(items[k]) && forall n: nat :: FirstIncomplete(m, state, n) ==> NoExitBefore(m, state, n)
  {
    hide FirstIncomplete, NoExitBefore, IsOpenSection, IsOffered, IsNextQuestion, Contiguous, ShowsNext, WellNumbered;
    hide TaskPages, FirstSeen, SectionStatus, ShowsQuestions;
    OfferedIsOpen(m, state, items, k);
    if ShowsNext(tasks, k) {
      var n := ShownNextIsNext(m, state, tasks, k);
      NextIsFirstIncomplete(m, state, n);
      FirstIncompleteIsInOpenSection(m, state, n, k);
      forall n': nat | FirstIncomplete(m, state, n') ensures NoExitBefore(m, state, n') {
        FirstIncompleteIsUnique(m, state, n, n');
      }
    }
    if IsOffered(items[k]) && forall n: nat :: FirstIncomplete(m, state, n) ==> NoExitBefore(m, state, n) {
      var n := OpenSectionHoldsFirstIncomplete(m, state, k);
      NextIsFirstIncomplete(m, state, n);
      NextIsShownInItsSection(m, state, tasks, n, k);
    }
  }

  lemma FirstIncompleteIsUnique(m: FormModel, state: FormState, n: nat, n': nat)
    requires FirstIncomplete(m, state, n) && FirstIncomplete(m, state, n')
    ensures n == n'
  {
    hide PageCompletion, TaskPages;
  }

  // ----- a form with a triggered exit, in both modes -----

  ghost const FIRST: Page := Page(0, "/a", "s", "QuestionPageController", "")
  ghost const EXIT: Page := Page(1, "/x", "", "TerminalPageController", "c")
  ghost const SECOND: Page := Page(2, "/b", "t", "QuestionPageController", "")

  ghost const EXIT_FORM: FormModel := FormModel(
    [FIRST, EXIT, SECOND], map["/a" := [Field("a", true)], "/b" := [Field("b", true)]],
    map["c" := (state: FormState) => true], map["s" := "S", "t" := "T"], "/f")

  ghost const EXIT_STATE: FormState := map["a" := Str("yes")]

  lemma PageAppended(pages: seq<Page>, p: Page, id: string)
    ensures TaskPagesOf(pages + [p]) == TaskPagesOf(pages) + (if IsTaskPage(p) then [p] else [])
    ensures FirstSeen(pages + [p])
            == FirstSeen(pages) + (if p.section in FirstSeen(pages) then [] else [p.section])
    ensures InSection(pages + [p], id) == InSection(pages, id) + (if p.section == id then [p] else [])
  {
    assert (pages + [p])[..|pages|] == pages;
  }

  lemma ExitFormPages()
    ensures TaskPages(EXIT_FORM) == [FIRST, SECOND] && WellNumbered(EXIT_FORM)
  {
    hide TaskPagesOf, FirstSeen, InSection;
    NoPages();
    PageAppended([], FIRST, "s");
    PageAppended([FIRST], EXIT, "s");
    PageAppended([FIRST, EXIT], SECOND, "s");
    assert [] + [FIRST] == [FIRST] && [FIRST] + [EXIT] == [FIRST, EXIT];
    assert [FIRST, EXIT] + [SECOND] == EXIT_FORM.pages;
  }

  lemma ExitFormSections()
    ensures FirstSeen([FIRST, SECOND]) == ["s", "t"]
    ensures InSection([FIRST, SECOND], "s") == [FIRST] && InSection([FIRST, SECOND], "t") == [SECOND]
  {
    hide TaskPagesOf, FirstSeen, InSection, IsTaskPage;
    NoPages();
    PageAppended([], FIRST, "s");
    PageAppended([], FIRST, "t");
    PageAppended([FIRST], SECOND, "s");
    PageAppended([FIRST], SECOND, "t");
    assert [] + [FIRST] == [FIRST] && [FIRST] + [SECOND] == [FIRST, SECOND];
  }

  lemma ExitFormGroups()
    ensures TaskPages(EXIT_FORM) == [FIRST, SECOND] && FirstSeen(TaskPages(EXIT_FORM)) == ["s", "t"]
    ensures WellNumbered(EXIT_FORM) && Groups(EXIT_FORM) == [[FIRST], [SECOND]]
  {
    hide TaskPages, FirstSeen, InSection;
    ExitFormPages();
    ExitFormSections();
  }

  lemma NoPages()
    ensures TaskPagesOf([]) == [] && FirstSeen([]) == [] && forall id :: InSection([], id) == []
  {
  }

  lemma ExitFormState()
    ensures PageCompletion(EXIT_FORM, FIRST, EXIT_STATE) == Complete
    ensures PageCompletion(EXIT_FORM, SECOND, EXIT_STATE) == Incomplete
    ensures TriggersExit(EXIT_FORM, FIRST, EXIT_STATE)
  {
    assert RequiredNames([Field("a", true)]) == ["a"] && RequiredNames([Field("b", true)]) == ["b"];
    assert Answered("a", EXIT_STATE) && !Answered("b", EXIT_STATE);
    assert FindPath(EXIT_FORM.pages, "/a") == 0;
    assert IsTriggeredExit(EXIT_FORM, EXIT_FORM.pages[1], EXIT_STATE);
  }

  /** The first page is answered and its exit is open: with questions hidden the second section is still linked as not
      started, with questions shown its only question is blocked. */
  lemma ExitIsIgnoredWithQuestionsHidden(items: seq<Item>, tasks: seq<Task>)
    requires ShowsSections(EXIT_FORM, EXIT_STATE, items) && ShowsQuestions(EXIT_FORM, EXIT_STATE, tasks)
    ensures |items| == |tasks| == 2 && items[1].status == NotStarted && items[1].href == Some("/f/b")
    ensures tasks[1].items == [Question(SECOND, CannotStart, None)]
  {
    hide PageCompletion, TriggersExit, TaskPages, FirstSeen, SectionStatus, InSection, Groups, QuestionAt;
    ExitFormGroups();
    ExitFormState();
    SectionStatusReason(EXIT_FORM, EXIT_STATE, Groups(EXIT_FORM), 1);
    assert SECOND in [SECOND] && FIRST in [FIRST];
    assert IsSectionItem(EXIT_FORM, EXIT_STATE, 1, items[1]);
    assert EXIT_FORM.basePath + SECOND.path == "/f/b";
    SecondQuestion();
    assert SectionPages(EXIT_FORM, 1) == Groups(EXIT_FORM)[1] by {
      GroupIsSection(EXIT_FORM, 1);
    }
  }

  lemma GroupIsSection(m: FormModel, t: nat)
    requires t < |FirstSeen(TaskPages(m))|
    ensures |Groups(m)| == |FirstSeen(TaskPages(m))| && Groups(m)[t] == SectionPages(m, t)
  {
    hide TaskPages, FirstSeen, InSection;
  }

  lemma SecondQuestion()
    ensures Questions(EXIT_FORM, EXIT_STATE, [FIRST, SECOND], [SECOND]) == [Question(SECOND, CannotStart, None)]
  {
    hide PageCompletion, TriggersExit;
    ExitFormState();
    var pages := [FIRST, SECOND];
    assert TriggersExit(EXIT_FORM, pages[0], EXIT_STATE);
    assert IndexOf(pages, SECOND) == 1;
    assert [SECOND][..0] == [];
    assert Questions(EXIT_FORM, EXIT_STATE, pages, []) == [];
  }
}
