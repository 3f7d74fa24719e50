// Which slices of the rollout are ready, and why completing ready slices never gets stuck.
module Rollout {
  type Id = string

  datatype Slice = Slice(id: Id, order: int, flag: string, dependsOn: seq<Id>, gates: seq<string>)

  datatype Entry = Entry(id: Id, flag: string, ready: bool, missingDependencies: seq<Id>, missingGates: seq<string>)

  function Missing(wanted: seq<string>, have: set<string>): (missing: seq<string>)
    ensures missing == [] <==> forall i | 0 <= i < |wanted| :: wanted[i] in have
    ensures forall x :: x in missing <==> x in wanted && x !in have
  {
    if wanted == [] then []
    else
      var rest := Missing(wanted[1..], have);
      assert wanted == [wanted[0]] + wanted[1..];
      if wanted[0] in have then rest else [wanted[0]] + rest
  }

  lemma MissingOne(x: string, have: set<string>)
    ensures Missing([x], have) == if x in have then [] else [x]
  {
    assert [x][1..] == [];
  }

  // What is missing keeps the order and the repetitions of what is wanted.
  lemma {:induction false} MissingFilters(a: seq<string>, b: seq<string>, x: string, have: set<string>)
    ensures Missing(a + b, have) == Missing(a, have) + Missing(b, have)
    ensures Missing([x], have) == if x in have then [] else [x]
  {
    MissingOne(x, have);
    if a == [] {
      assert a + b == b;
    } else {
      assert (a + b)[1..] == a[1..] + b;
      MissingFilters(a[1..], b, x, have);
    }
  }

  function EntryOf(s: Slice, completed: set<Id>, passed: set<string>): Entry {
    var d, g := Missing(s.dependsOn, completed), Missing(s.gates, passed);
    Entry(s.id, s.flag, d == [] && g == [], d, g)
  }

  function BuildRolloutReadinessReport(table: seq<Slice>, completed: set<Id>, passed: set<string>): (report: seq<Entry>)
    ensures |report| == |table|
    ensures forall i | 0 <= i < |table| :: report[i].id == table[i].id && report[i].flag == table[i].flag
    ensures forall i | 0 <= i < |table| :: report[i].ready <==>
              (forall d | d in table[i].dependsOn :: d in completed) && (forall g | g in table[i].gates :: g in passed)
    ensures forall i | 0 <= i < |table| ::
              && report[i].missingDependencies == Missing(table[i].dependsOn, completed)
              && report[i].missingGates == Missing(table[i].gates, passed)
  {
    seq(|table|, i requires 0 <= i < |table| => EntryOf(table[i], completed, passed))
  }

  // Some entry of the report names this slice and calls it ready.
  predicate ReportedReady(table: seq<Slice>, completed: set<Id>, passed: set<string>, id: Id) {
    exists i | 0 <= i < |table| ::
      BuildRolloutReadinessReport(table, completed, passed)[i].ready && table[i].id == id
  }

  // ---- tables ----

  // Ids are distinct, and every dependency is a slice of the table with a smaller order.
  ghost predicate WellOrdered(table: seq<Slice>) {
    && (forall i, j | 0 <= i < j < |table| :: table[i].id != table[j].id)
    && forall i, d | 0 <= i < |table| && d in table[i].dependsOn ::
         exists j :: 0 <= j < |table| && table[j].id == d && table[j].order < table[i].order
  }

  function Ids(table: seq<Slice>): set<Id> {
    set i | 0 <= i < |table| :: table[i].id
  }

  ghost predicate Passes(table: seq<Slice>, passed: set<string>) {
    forall i, g | 0 <= i < |table| && g in table[i].gates :: g in passed
  }

  ghost predicate ClosedUnderDependencies(table: seq<Slice>, completed: set<Id>) {
    forall i, d | 0 <= i < |table| && table[i].id in completed && d in table[i].dependsOn :: d in completed
  }

  // ---- progress ----

  // An incomplete slice of the smallest order at or before slice i.
  lemma {:induction false} LowestIncomplete(table: seq<Slice>, completed: set<Id>, n: nat) returns (k: nat)
    requires n <= |table| && exists i :: 0 <= i < n && table[i].id !in completed
    ensures k < n && table[k].id !in completed
    ensures forall i | 0 <= i < n && table[i].id !in completed :: table[k].order <= table[i].order
  {
    if exists i :: 0 <= i < n - 1 && table[i].id !in completed {
      k := LowestIncomplete(table, completed, n - 1);
      if table[n - 1].id !in completed && table[n - 1].order < table[k].order {
        k := n - 1;
      }
    } else {
      k := n - 1;
    }
  }

  // With all gates passed, some incomplete slice is reported ready as long as one is left.
  lemma Progress(table: seq<Slice>, completed: set<Id>, passed: set<string>) returns (id: Id)
    requires WellOrdered(table) && Passes(table, passed) && !(Ids(table) <= completed)
    ensures id in Ids(table) && id !in completed && ReportedReady(table, completed, passed, id)
  {
    var k := LowestIncomplete(table, completed, |table|);
    id := table[k].id;
    forall i | 0 <= i < |table[k].dependsOn| ensures table[k].dependsOn[i] in completed {
      assert table[k].dependsOn[i] in table[k].dependsOn;
    }
    assert BuildRolloutReadinessReport(table, completed, passed)[k].ready;
  }

  // More completed slices and more passed gates never make a ready slice unready.
  lemma ReadyMonotone(table: seq<Slice>, c1: set<Id>, c2: set<Id>, g1: set<string>, g2: set<string>, i: nat)
    requires i < |table| && c1 <= c2 && g1 <= g2
    ensures BuildRolloutReadinessReport(table, c1, g1)[i].ready ==> BuildRolloutReadinessReport(table, c2, g2)[i].ready
  {
  }

  // ---- runs ----

  // Each step completes an incomplete slice that the report calls ready.
  ghost predicate Rolls(table: seq<Slice>, passed: set<string>, start: set<Id>, steps: seq<Id>) {
    forall k | 0 <= k < |steps| ::
      && steps[k] !in Reached(start, steps[..k])
      && ReportedReady(table, Reached(start, steps[..k]), passed, steps[k])
  }

  function Reached(start: set<Id>, steps: seq<Id>): set<Id> {
    start + (set k | 0 <= k < |steps| :: steps[k])
  }

  lemma ReachedNext(start: set<Id>, steps: seq<Id>)
    requires steps != []
    ensures Reached(start, steps) == Reached(start, steps[..|steps| - 1]) + {steps[|steps| - 1]}
  {
    var n := |steps| - 1;
    assert steps == steps[..n] + [steps[n]];
    forall x ensures x in Reached(start, steps) <==> x in Reached(start, steps[..n]) + {steps[n]} {
      if x in steps[..n] {
        var k :| 0 <= k < n && steps[..n][k] == x;
        assert steps[k] == x;
      }
      if x in steps && x != steps[n] {
        var k :| 0 <= k < |steps| && steps[k] == x;
        assert steps[..n][k] == x;
      }
    }
  }

  // Completing ready slices one by one shortens what is left by exactly one slice a step, whatever
  // the order and whatever was complete at the start; a start that is closed under dependencies
  // stays closed.
  lemma {:induction false} RollKeeps(table: seq<Slice>, passed: set<string>, start: set<Id>, steps: seq<Id>)
    requires WellOrdered(table) && Rolls(table, passed, start, steps)
    ensures |Ids(table) - Reached(start, steps)| + |steps| == |Ids(table) - start|
    ensures ClosedUnderDependencies(table, start) ==> ClosedUnderDependencies(table, Reached(start, steps))
  {
    hide WellOrdered, ClosedUnderDependencies, ReportedReady, Rolls, Reached, Ids;
    if steps == [] {
      assert Reached(start, steps) == start by { ReachedNone(start); }
    } else {
      var front, id := steps[..|steps| - 1], steps[|steps| - 1];
      RollsFront(table, passed, start, steps);
      RollKeeps(table, passed, start, front);
      ReachedNext(start, steps);
      RollStep(table, Reached(start, front), passed, id);
    }
  }

  lemma ReachedNone(start: set<Id>)
    ensures Reached(start, []) == start
  {
  }

  lemma RollsFront(table: seq<Slice>, passed: set<string>, start: set<Id>, steps: seq<Id>)
    requires Rolls(table, passed, start, steps) && steps != []
    ensures var front, id := steps[..|steps| - 1], steps[|steps| - 1];
            && Rolls(table, passed, start, front)
            && id !in Reached(start, front) && ReportedReady(table, Reached(start, front), passed, id)
  {
    hide ReportedReady, Reached;
    var front := steps[..|steps| - 1];
    assert forall k | 0 <= k < |front| :: front[..k] == steps[..k];
  }

  lemma RollStep(table: seq<Slice>, completed: set<Id>, passed: set<string>, id: Id)
    requires WellOrdered(table) && ReportedReady(table, completed, passed, id) && id !in completed
    ensures ClosedUnderDependencies(table, completed) ==> ClosedUnderDependencies(table, completed + {id})
    ensures |Ids(table) - (completed + {id})| + 1 == |Ids(table) - completed|
  {
    ReadyDependencies(table, completed, passed, id);
    hide Ids;
    assert Ids(table) - (completed + {id}) == Ids(table) - completed - {id};
    assert id in Ids(table) - completed;
  }

  lemma ReadyDependencies(table: seq<Slice>, completed: set<Id>, passed: set<string>, id: Id)
    requires WellOrdered(table) && ReportedReady(table, completed, passed, id)
    ensures id in Ids(table)
    ensures forall i, d | 0 <= i < |table| && table[i].id == id && d in table[i].dependsOn :: d in completed
  {
    var k :| 0 <= k < |table| && BuildRolloutReadinessReport(table, completed, passed)[k].ready && table[k].id == id;
    forall i, d | 0 <= i < |table| && table[i].id == id && d in table[i].dependsOn ensures d in completed {
      assert i == k;
    }
  }

  // With all gates passed, a run that can go no further has completed every slice, in exactly as
  // many steps as slices were left at the start.
  lemma RolloutCompletes(table: seq<Slice>, passed: set<string>, start: set<Id>, steps: seq<Id>)
    requires WellOrdered(table) && Passes(table, passed) && Rolls(table, passed, start, steps)
    ensures (forall id | id in Ids(table) && id !in Reached(start, steps) ::
               !ReportedReady(table, Reached(start, steps), passed, id))
       <==> Ids(table) <= Reached(start, steps)
    ensures Ids(table) <= Reached(start, steps) <==> |steps| == |Ids(table) - start|
  {
    RollKeeps(table, passed, start, steps);
    var left := Ids(table) - Reached(start, steps);
    if !(Ids(table) <= Reached(start, steps)) {
      var id := Progress(table, Reached(start, steps), passed);
      assert id in left;
    } else {
      assert left == {};
    }
  }

  // ---- the table of the repository ----

  const UNIVERSAL := ["copy_review", "accessibility_review", "responsive_device_qa", "visual_regression_qa"]

  const SLICES := [
    Slice("foundation", 0, "v6_foundation", [], ["typecheck"] + UNIVERSAL),
    Slice("mobile_shell", 1, "v6_mobile_shell", ["foundation"], ["typecheck", "cached_render_test"] + UNIVERSAL),
    Slice("trip_home", 2, "v6_trip_home", ["foundation", "mobile_shell"],
          ["typecheck", "cached_render_test", "performance_budget"] + UNIVERSAL),
    Slice("tasks", 3, "v6_task_command", ["foundation", "mobile_shell", "trip_home"],
          ["typecheck", "offline_sync_check"] + UNIVERSAL),
    Slice("timeline", 4, "v6_timeline", ["foundation", "mobile_shell", "trip_home"],
          ["typecheck", "long_trip_timeline_check"] + UNIVERSAL),
    Slice("provider_sheet", 5, "v6_provider_sheet", ["foundation", "mobile_shell", "trip_home", "tasks"],
          ["typecheck", "provider_validation", "fallback_action_check"] + UNIVERSAL),
    Slice("documents_reminders", 6, "v6_documents_reminders", ["foundation", "mobile_shell", "trip_home", "tasks"],
          ["typecheck", "document_sensitivity_review", "offline_sync_check"] + UNIVERSAL),
    Slice("web_planning", 7, "v6_web_planning", ["foundation"], ["typecheck", "build"] + UNIVERSAL),
    Slice("web_operations", 8, "v6_web_operations", ["foundation", "web_planning"],
          ["typecheck", "build", "admin_keyboard_pass"] + UNIVERSAL),
    Slice("qa_hardening", 9, "v6_qa_hardening",
          ["foundation", "mobile_shell", "trip_home", "tasks", "timeline", "provider_sheet",
           "documents_reminders", "web_planning", "web_operations"],
          ["typecheck", "build", "performance_budget"] + UNIVERSAL)
  ]

  function Position(id: Id): nat {
    if id == "foundation" then 0 else if id == "mobile_shell" then 1 else if id == "trip_home" then 2
    else if id == "tasks" then 3 else if id == "timeline" then 4 else if id == "provider_sheet" then 5
    else if id == "documents_reminders" then 6 else if id == "web_planning" then 7
    else if id == "web_operations" then 8 else 9
  }

  lemma SliceDependencies(i: nat)
    requires i < |SLICES|
    ensures SLICES[i].order == i && Position(SLICES[i].id) == i
    ensures forall d | d in SLICES[i].dependsOn :: Position(d) < i && SLICES[Position(d)].id == d
  {
    hide Position, UNIVERSAL;
    Positions();
    SliceIds();
  }

  lemma Positions()
    ensures Position("foundation") == 0 && Position("mobile_shell") == 1 && Position("trip_home") == 2
    ensures Position("tasks") == 3 && Position("timeline") == 4 && Position("provider_sheet") == 5
    ensures Position("documents_reminders") == 6 && Position("web_planning") == 7
    ensures Position("web_operations") == 8 && Position("qa_hardening") == 9
  {
  }

  lemma SliceIds()
    ensures |SLICES| == 10 && SLICES[0].id == "foundation" && SLICES[1].id == "mobile_shell"
    ensures SLICES[2].id == "trip_home" && SLICES[3].id == "tasks" && SLICES[4].id == "timeline"
    ensures SLICES[5].id == "provider_sheet" && SLICES[6].id == "documents_reminders"
    ensures SLICES[7].id == "web_planning" && SLICES[8].id == "web_operations" && SLICES[9].id == "qa_hardening"
  {
    hide UNIVERSAL;
  }

  // The repository's own table meets the condition.
  lemma SlicesWellOrdered()
    ensures WellOrdered(SLICES)
  {
    forall i | 0 <= i < |SLICES|
      ensures SLICES[i].order == i && Position(SLICES[i].id) == i
      ensures forall d | d in SLICES[i].dependsOn :: Position(d) < i && SLICES[Position(d)].id == d
    {
      SliceDependencies(i);
    }
    hide Position;
    forall i, d | 0 <= i < |SLICES| && d in SLICES[i].dependsOn
      ensures exists j :: 0 <= j < |SLICES| && SLICES[j].id == d && SLICES[j].order < SLICES[i].order
    {
      assert SLICES[Position(d)].id == d;
    }
  }
  // ---- the report before any slice ----

  // The gates that every slice has: the type check and the four reviews.
  const COMMON := {"typecheck", "copy_review", "accessibility_review", "responsive_device_qa", "visual_regression_qa"}

  lemma CommonGates(i: nat)
    requires i < |SLICES|
    ensures forall g | g in COMMON :: g in SLICES[i].gates
  {
    assert forall g | g in UNIVERSAL :: g in SLICES[i].gates;
  }

  function EarlyReport(): (report: seq<Entry>)
    ensures |report| == 10
  {
    BuildRolloutReadinessReport(SLICES, {}, COMMON)
  }

  lemma GatesLeft(own: seq<string>)
    ensures Missing(["typecheck"] + own + UNIVERSAL, COMMON) == Missing(own, COMMON)
  {
    MissingFilters(["typecheck"] + own, UNIVERSAL, "typecheck", COMMON);
    MissingFilters(["typecheck"], own, "typecheck", COMMON);
    assert Missing(UNIVERSAL, COMMON) == [];
  }

  lemma {:induction false} MissingAll(wanted: seq<string>, have: set<string>)
    requires forall x | x in wanted :: x !in have
    ensures Missing(wanted, have) == wanted
  {
    if wanted != [] {
      assert wanted == [wanted[0]] + wanted[1..];
      MissingAll(wanted[1..], have);
    }
  }

  lemma EntryFrom(i: nat, id: Id, flag: string, deps: seq<Id>, own: seq<string>)
    requires i < |SLICES| && SLICES[i] == Slice(id, i, flag, deps, ["typecheck"] + own + UNIVERSAL)
    requires forall g | g in own :: g !in COMMON
    ensures EarlyReport()[i] == Entry(id, flag, deps == [] && own == [], deps, own)
  {
    GatesLeft(own);
    MissingAll(own, COMMON);
    MissingAll(deps, {});
    hide SLICES, UNIVERSAL, COMMON, Missing;
  }

  // The gates of their own that slices have.
  lemma OwnGates()
    ensures forall g | g in ["cached_render_test", "performance_budget", "offline_sync_check", "build"] :: g !in COMMON
    ensures forall g | g in ["long_trip_timeline_check", "provider_validation", "fallback_action_check"] :: g !in COMMON
    ensures forall g | g in ["document_sensitivity_review", "admin_keyboard_pass"] :: g !in COMMON
  {
  }

  // When the common gates have passed and nothing is complete, the foundation alone is ready; what each
  // other slice waits for is its own gates and all its dependencies.
  lemma FirstReport()
    ensures EarlyReport()[0]
         == Entry("foundation", "v6_foundation", true, [], [])
    ensures EarlyReport()[1]
         == Entry("mobile_shell", "v6_mobile_shell", false, ["foundation"], ["cached_render_test"])
    ensures EarlyReport()[2]
         == Entry("trip_home", "v6_trip_home", false,
                        ["foundation", "mobile_shell"],
                        ["cached_render_test", "performance_budget"])
    ensures EarlyReport()[3]
         == Entry("tasks", "v6_task_command", false,
                        ["foundation", "mobile_shell", "trip_home"],
                        ["offline_sync_check"])
    ensures EarlyReport()[4]
         == Entry("timeline", "v6_timeline", false,
                        ["foundation", "mobile_shell", "trip_home"],
                        ["long_trip_timeline_check"])
    ensures EarlyReport()[5]
         == Entry("provider_sheet", "v6_provider_sheet", false,
                        ["foundation", "mobile_shell", "trip_home", "tasks"],
                        ["provider_validation", "fallback_action_check"])
    ensures EarlyReport()[6]
         == Entry("documents_reminders", "v6_documents_reminders", false,
                        ["foundation", "mobile_shell", "trip_home", "tasks"],
                        ["document_sensitivity_review", "offline_sync_check"])
    ensures EarlyReport()[7]
         == Entry("web_planning", "v6_web_planning", false, ["foundation"], ["build"])
    ensures EarlyReport()[8]
         == Entry("web_operations", "v6_web_operations", false,
                        ["foundation", "web_planning"],
                        ["build", "admin_keyboard_pass"])
    ensures EarlyReport()[9]
         == Entry("qa_hardening", "v6_qa_hardening", false,
                        ["foundation", "mobile_shell", "trip_home", "tasks", "timeline", "provider_sheet",
                         "documents_reminders", "web_planning", "web_operations"],
                        ["build", "performance_budget"])
  {
    OwnGates();
    hide COMMON, EarlyReport;
    EntryFrom(0, "foundation", "v6_foundation", [], []);
    EntryFrom(1, "mobile_shell", "v6_mobile_shell", ["foundation"], ["cached_render_test"]);
    EntryFrom(2, "trip_home", "v6_trip_home",
              ["foundation", "mobile_shell"], ["cached_render_test", "performance_budget"]);
    EntryFrom(3, "tasks", "v6_task_command", ["foundation", "mobile_shell", "trip_home"], ["offline_sync_check"]);
    EntryFrom(4, "timeline", "v6_timeline", ["foundation", "mobile_shell", "trip_home"], ["long_trip_timeline_check"]);
    EntryFrom(5, "provider_sheet", "v6_provider_sheet",
              ["foundation", "mobile_shell", "trip_home", "tasks"], ["provider_validation", "fallback_action_check"]);
    EntryFrom(6, "documents_reminders", "v6_documents_reminders",
              ["foundation", "mobile_shell", "trip_home", "tasks"], ["document_sensitivity_review",
               "offline_sync_check"]);
    EntryFrom(7, "web_planning", "v6_web_planning", ["foundation"], ["build"]);
    EntryFrom(8, "web_operations", "v6_web_operations",
              ["foundation", "web_planning"], ["build", "admin_keyboard_pass"]);
    EntryFrom(9, "qa_hardening", "v6_qa_hardening",
              ["foundation", "mobile_shell", "trip_home", "tasks", "timeline", "provider_sheet",
               "documents_reminders", "web_planning", "web_operations"], ["build", "performance_budget"]);
  }
}
