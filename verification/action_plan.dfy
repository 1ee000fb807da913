/** The interactive action-plan checklist: the student picks one of the
    course's scenarios and ticks its steps off. Its state is the selected
    scenario and the list of completed step ids. */
module ActionPlan {
  import opened Js
  import Seqs
  import opened Catalogue

  datatype State = State(selected: Option<Scenario>, completed: seq<string>)

  const Initial: State := State(None, [])

  /** `prev.filter((id) => id !== stepId)`. */
  function Without(xs: seq<string>, x: string): (r: seq<string>)
    ensures forall y :: y in r <==> y in xs && y != x
    ensures |r| <= |xs|
    ensures x !in r
    ensures forall y :: y != x ==> Seqs.Count(r, y) == Seqs.Count(xs, y)
  {
    if xs == [] then []
    else
      var rest := Without(xs[1..], x);
      assert [xs[0]] + xs[1..] == xs;
      assert forall y :: Seqs.Count(xs, y) == (if xs[0] == y then 1 else 0) + Seqs.Count(xs[1..], y) by {
        forall y ensures Seqs.Count(xs, y) == (if xs[0] == y then 1 else 0) + Seqs.Count(xs[1..], y) {
          Seqs.CountCons(xs[0], xs[1..], y);
        }
      }
      if xs[0] == x then rest
      else
        assert forall y :: Seqs.Count([xs[0]] + rest, y) == (if xs[0] == y then 1 else 0) + Seqs.Count(rest, y) by {
          forall y ensures Seqs.Count([xs[0]] + rest, y) == (if xs[0] == y then 1 else 0) + Seqs.Count(rest, y) {
            Seqs.CountCons(xs[0], rest, y);
          }
        }
        [xs[0]] + rest
  }

  /** Filtering out an absent id changes nothing. */
  lemma {:induction false} WithoutAbsent(xs: seq<string>, x: string)
    requires x !in xs
    ensures Without(xs, x) == xs
  {
    if xs != [] {
      WithoutAbsent(xs[1..], x);
      assert xs == [xs[0]] + xs[1..];
    }
  }

  /** In a duplicate-free list, filtering out `xs[i]` drops exactly that position and keeps the
      other ids in their order. */
  lemma {:induction false} WithoutOnce(xs: seq<string>, i: nat)
    requires Seqs.Distinct(xs) && i < |xs|
    ensures Without(xs, xs[i]) == xs[..i] + xs[i + 1..]
  {
    if i == 0 {
      assert xs[0] !in xs[1..];
      WithoutAbsent(xs[1..], xs[0]);
    } else {
      assert Seqs.Distinct(xs[1..]);
      assert xs[1..][i - 1] == xs[i];
      WithoutOnce(xs[1..], i - 1);
      assert xs[1..][..i - 1] + xs[1..][i..] == xs[1..i] + xs[i + 1..];
      assert xs[..i] == [xs[0]] + xs[1..i];
    }
  }

  lemma {:induction false} WithoutDistinct(xs: seq<string>, x: string)
    requires Seqs.Distinct(xs)
    ensures Seqs.Distinct(Without(xs, x))
  {
    if x in xs {
      var i :| 0 <= i < |xs| && xs[i] == x;
      WithoutOnce(xs, i);
      var r := xs[..i] + xs[i + 1..];
      forall p, q | 0 <= p < q < |r| ensures r[p] != r[q] {
        var p', q' := if p < i then p else p + 1, if q < i then q else q + 1;
        assert r[p] == xs[p'] && r[q] == xs[q'];
      }
    } else {
      WithoutAbsent(xs, x);
    }
  }

  /** `toggleStep(stepId)`: remove the id when it is listed, append it otherwise. */
  function Toggle(xs: seq<string>, id: string): (r: seq<string>)
    ensures id in r <==> id !in xs
    ensures forall y :: y != id ==> (y in r <==> y in xs)
    ensures forall y :: y != id ==> Seqs.Count(r, y) == Seqs.Count(xs, y)
    ensures id !in xs ==> r == xs + [id]
  {
    if id in xs then Without(xs, id) else xs + [id]
  }

  /** A duplicate-free list stays duplicate-free, and a listed id is dropped in place. */
  lemma ToggleKeepsDistinct(xs: seq<string>, id: string)
    requires Seqs.Distinct(xs)
    ensures Seqs.Distinct(Toggle(xs, id))
    ensures forall i :: 0 <= i < |xs| && xs[i] == id ==> Toggle(xs, id) == xs[..i] + xs[i + 1..]
  {
    WithoutDistinct(xs, id);
    forall i | 0 <= i < |xs| && xs[i] == id ensures Toggle(xs, id) == xs[..i] + xs[i + 1..] {
      WithoutOnce(xs, i);
    }
  }

  /** Ticking an unticked step and unticking it again restores the list. */
  lemma ToggleTwice(xs: seq<string>, id: string)
    requires id !in xs
    ensures Toggle(Toggle(xs, id), id) == xs
  {
    WithoutSnoc(xs, id, id);
    assert Without(xs, id) + [] == Without(xs, id);
    WithoutAbsent(xs, id);
  }

  /** The filter keeps one more id at the end exactly when it is not the removed one, so the
      kept ids stay in their order. */
  lemma {:induction false} WithoutSnoc(xs: seq<string>, x: string, y: string)
    ensures Without(xs + [y], x) == Without(xs, x) + (if y == x then [] else [y])
  {
    if xs == [] {
      assert [y][1..] == [];
    } else {
      assert (xs + [y])[1..] == xs[1..] + [y];
      WithoutSnoc(xs[1..], x, y);
      if xs[0] != x {
        assert [xs[0]] + (Without(xs[1..], x) + (if y == x then [] else [y]))
            == ([xs[0]] + Without(xs[1..], x)) + (if y == x then [] else [y]);
      }
    }
  }

  /** Picking a scenario selects it and clears the ticked steps. */
  function SelectScenario(s: State, sc: Scenario): (r: State)
    ensures r.selected == Some(sc) && r.completed == []
  {
    State(Some(sc), [])
  }

  /** `if (!course.scenarios || course.scenarios.length === 0) return null`. */
  predicate Renders(course: Course) {
    |course.scenarios| > 0
  }

  /** The ids of a scenario's steps. */
  function StepIds(sc: Scenario): (ids: seq<string>)
    ensures |ids| == |sc.steps|
    ensures forall k :: 0 <= k < |ids| ==> ids[k] == sc.steps[k].id
  {
    seq(|sc.steps|, k requires 0 <= k < |sc.steps| => sc.steps[k].id)
  }

  datatype Event = Pick(scenario: Scenario) | Tick(stepId: string)

  /** A scenario button exists for each of the course's scenarios (and only when the component
      renders); a step can be clicked only when it belongs to the selected scenario. */
  predicate Enabled(course: Course, s: State, e: Event) {
    match e
    case Pick(sc) => Renders(course) && sc in course.scenarios
    case Tick(id) => s.selected.Some? && id in StepIds(s.selected.value)
  }

  function Apply(course: Course, s: State, e: Event): (r: State)
    ensures !Enabled(course, s, e) ==> r == s
  {
    if !Enabled(course, s, e) then s
    else
      match e
      case Pick(sc) => SelectScenario(s, sc)
      case Tick(id) => s.(completed := Toggle(s.completed, id))
  }

  /** The ticked ids are distinct step ids of the selected scenario, and nothing is ticked
      before a scenario is picked. */
  predicate Valid(course: Course, s: State) {
    && Seqs.Distinct(s.completed)
    && (s.selected.None? ==> s.completed == [])
    && (s.selected.Some? ==>
          && s.selected.value in course.scenarios
          && forall k :: 0 <= k < |s.completed| ==> s.completed[k] in StepIds(s.selected.value))
  }

  lemma ApplyValid(course: Course, s: State, e: Event)
    requires Valid(course, s)
    ensures Valid(course, Apply(course, s, e))
  {
    if Enabled(course, s, e) && e.Tick? {
      ToggleKeepsDistinct(s.completed, e.stepId);
      var r := Toggle(s.completed, e.stepId);
      forall k | 0 <= k < |r| ensures r[k] in StepIds(s.selected.value) {
        assert r[k] in r;
        if r[k] != e.stepId {
          var j :| 0 <= j < |s.completed| && s.completed[j] == r[k];
        }
      }
    }
  }

  function Run(course: Course, s: State, es: seq<Event>): State
    decreases |es|
  {
    if es == [] then s else Run(course, Apply(course, s, es[0]), es[1..])
  }

  lemma {:induction false} RunValid(course: Course, s: State, es: seq<Event>)
    requires Valid(course, s)
    ensures Valid(course, Run(course, s, es))
    decreases |es|
  {
    if es != [] {
      ApplyValid(course, s, es[0]);
      RunValid(course, Apply(course, s, es[0]), es[1..]);
    }
  }

  /** A course without scenarios renders nothing, and no click changes its state. */
  lemma {:induction false} NoScenariosNoChange(course: Course, es: seq<Event>)
    requires !Renders(course)
    ensures Run(course, Initial, es) == Initial
    decreases |es|
  {
    if es != [] {
      assert Apply(course, Initial, es[0]) == Initial;
      NoScenariosNoChange(course, es[1..]);
    }
  }

  /** None of the shipped courses renders the checklist. */
  lemma ShippedCoursesRenderNothing()
    ensures forall i :: 0 <= i < |Courses| ==> !Renders(Courses[i])
  {
    CatalogueInvariants();
  }
}
