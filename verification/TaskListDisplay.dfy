/** What the task list shows of a page: its address, the titles of the sections, and the two numbers of the counter. */
module TaskListDisplay {
  import opened Common
  import opened TaskList

  // ----- links and titles -----

  /** A question shown as completed links to its own page, the one to answer next likewise, and any other to
      nothing; it is completed exactly if its page is complete, and next exactly if the page is incomplete and no
      page before it is incomplete or triggers an exit. */
  lemma QuestionsLinkToTheirPages(m: FormModel, state: FormState, tasks: seq<Task>, t: nat, i: nat)
    requires WellNumbered(m) && ShowsQuestions(m, state, tasks) && IsItem(tasks, t, i)
    ensures var item := tasks[t].items[i];
            && item.page in TaskPages(m)
            && (item.status == Completed || item.status == NotStarted ==>
                  item.href == Some(m.basePath + item.page.path))
            && (item.status != Completed && item.status != NotStarted ==> item.status == CannotStart && item.href.None?)
            && (item.status == Completed <==> PageCompletion(m, item.page, state) == Complete)
            && (item.status == NotStarted <==>
                  && PageCompletion(m, item.page, state) == Incomplete
                  && forall p :: p in TaskPages(m) && p.at < item.page.at ==>
                       PageCompletion(m, p, state) != Incomplete && !TriggersExit(m, p, state))
  {
    hide PageCompletion, TriggersExit, Questions, FirstSeen, InSection, TaskPages, ShowsQuestions;
    var pages := TaskPages(m);
    TaskPagesAscend(m);
    var n := ShownItem(m, state, tasks, t, i);
    forall p | p in pages && p.at < pages[n].at ensures exists j :: 0 <= j < n && pages[j] == p {
      assert pages[IndexOf(pages, p)] == p;
    }
    forall j | 0 <= j < n ensures pages[j] in pages && pages[j].at < pages[n].at {
    }
  }

  /** In both modes each section carries the title given to its id. */
  lemma SectionsCarryTheirTitles(m: FormModel, state: FormState, items: seq<Item>, tasks: seq<Task>, n: nat)
    requires ShowsSections(m, state, items) && ShowsQuestions(m, state, tasks)
    requires n < |FirstSeen(TaskPages(m))| && FirstSeen(TaskPages(m))[n] in m.titles
    ensures n < |items| == |tasks|
    ensures items[n].title == tasks[n].title == m.titles[FirstSeen(TaskPages(m))[n]]
  {
    hide TaskPages, FirstSeen, InSection, SectionStatus, Questions;
    assert IsSectionItem(m, state, n, items[n]);
  }

  // ----- the counter -----

  /** The positions of the pages with one of the given completions. */
  function Positions(m: FormModel, state: FormState, pages: seq<Page>, wanted: set<Completion>): set<nat> {
    set j: nat | j < |pages| && PageCompletion(m, pages[j], state) in wanted
  }

  function Shifted(s: set<nat>): set<nat> {
    set j: nat | j in s :: j + 1
  }

  lemma ShiftedHas(s: set<nat>, y: nat)
    ensures y in Shifted(s) <==> y > 0 && y - 1 in s
  {
    if y > 0 && y - 1 in s {
      assert y == (y - 1) + 1;
    }
  }

  lemma {:induction false} ShiftKeepsSize(s: set<nat>)
    ensures |Shifted(s)| == |s|
  {
    hide Shifted;
    if s == {} {
      NothingShifts();
    } else {
      var x :| x in s;
      ShiftKeepsSize(s - {x});
      forall y: nat ensures y in Shifted(s) <==> y in Shifted(s - {x}) + {x + 1} {
        ShiftedHas(s, y);
        ShiftedHas(s - {x}, y);
      }
      ShiftedHas(s - {x}, x + 1);
      assert Shifted(s) == Shifted(s - {x}) + {x + 1};
    }
  }

  lemma NothingShifts()
    ensures Shifted({}) == {}
  {
  }

  lemma PositionsOfHead(m: FormModel, state: FormState, pages: seq<Page>, wanted: set<Completion>)
    requires pages != []
    ensures |Positions(m, state, pages, wanted)|
            == |Positions(m, state, pages[1..], wanted)|
               + (if PageCompletion(m, pages[0], state) in wanted then 1 else 0)
  {
    hide PageCompletion, Shifted;
    var rest := Positions(m, state, pages[1..], wanted);
    var shifted := Shifted(rest);
    var head := if PageCompletion(m, pages[0], state) in wanted then {0} else {};
    ShiftKeepsSize(rest);
    forall j: nat ensures j in Positions(m, state, pages, wanted) <==> j in head + shifted {
      if j > 0 && j < |pages| {
        assert pages[j] == pages[1..][j - 1];
      }
      ShiftedHas(rest, j);
    }
    ShiftedHas(rest, 0);
    assert Positions(m, state, pages, wanted) == head + shifted;
  }

  lemma {:induction false} CountsArePositions(m: FormModel, state: FormState, pages: seq<Page>)
    ensures |Applicable(m, state, pages)| == |Positions(m, state, pages, {Incomplete, Complete})|
    ensures |CompletedOf(m, state, Applicable(m, state, pages))| == |Positions(m, state, pages, {Complete})|
  {
    hide PageCompletion;
    if pages != [] {
      CountsArePositions(m, state, pages[1..]);
      PositionsOfHead(m, state, pages, {Incomplete, Complete});
      PositionsOfHead(m, state, pages, {Complete});
      var rest := Applicable(m, state, pages[1..]);
      CountHead(m, state, pages[0], rest);
      assert Applicable(m, state, pages)
          == if PageCompletion(m, pages[0], state) != Hidden then [pages[0]] + rest else rest;
    }
  }

  /** The counter shows how many task pages are complete, out of how many that are not hidden. */
  lemma CounterCountsPages(m: FormModel, state: FormState)
    ensures var stats, pages := CompletionStats(m, state), TaskPages(m);
            && stats.completed == |set j: nat | j < |pages| && PageCompletion(m, pages[j], state) == Complete|
            && stats.total == |set j: nat | j < |pages| && PageCompletion(m, pages[j], state) != Hidden|
            && stats.completed <= stats.total && (stats.isComplete <==> stats.completed == stats.total)
  {
    hide PageCompletion, TaskPages;
    var pages := TaskPages(m);
    CountsArePositions(m, state, pages);
    assert Positions(m, state, pages, {Complete})
        == set j: nat | j < |pages| && PageCompletion(m, pages[j], state) == Complete;
    assert Positions(m, state, pages, {Incomplete, Complete})
        == set j: nat | j < |pages| && PageCompletion(m, pages[j], state) != Hidden;
  }

  /** One of the two pages of the form with an open exit is complete. */
  lemma ExitFormCounter()
    ensures CompletionStats(EXIT_FORM, EXIT_STATE) == Stats(1, 2, false)
  {
    hide PageCompletion, TaskPages;
    ExitFormPages();
    ExitFormState();
    CounterCountsPages(EXIT_FORM, EXIT_STATE);
    var pages := TaskPages(EXIT_FORM);
    assert (set j: nat | j < |pages| && PageCompletion(EXIT_FORM, pages[j], EXIT_STATE) == Complete) == {0};
    assert (set j: nat | j < |pages| && PageCompletion(EXIT_FORM, pages[j], EXIT_STATE) != Hidden) == {0, 1};
  }
}
