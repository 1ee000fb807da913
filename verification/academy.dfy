/** The academy page's `courses.reduce` that groups the catalogue by
    subject into an object, enumerated with `Object.entries`. The object is
    modelled as its keys in insertion order plus the key-to-array map;
    `Object.entries` yields keys that are not array indices in insertion
    order. */
module Academy {
  import Seqs
  import opened Catalogue

  /** A plain object `Record<string, Course[]>`. */
  datatype Record = Record(keys: seq<string>, values: map<string, seq<Course>>)

  /** The keys listed are exactly the keys present (that each is listed once is `GroupKeys`). */
  predicate WellFormed(r: Record) {
    (forall k :: k in r.values ==> k in r.keys) && (forall k :: k in r.keys ==> k in r.values)
  }

  const Empty: Record := Record([], map[])

  /** One step of the reduce: create the subject's array if it is missing, then push the course. */
  function AddCourse(acc: Record, c: Course): (r: Record)
    requires WellFormed(acc)
    ensures WellFormed(r)
    ensures c.subject in acc.values ==> r.keys == acc.keys
    ensures c.subject !in acc.values ==> r.keys == acc.keys + [c.subject]
    ensures c.subject in r.values && r.values[c.subject] ==
              (if c.subject in acc.values then acc.values[c.subject] else []) + [c]
    ensures forall k :: k in acc.values && k != c.subject ==> k in r.values && r.values[k] == acc.values[k]
  {
    if c.subject in acc.values then
      Record(acc.keys, acc.values[c.subject := acc.values[c.subject] + [c]])
    else
      Record(acc.keys + [c.subject], acc.values[c.subject := [c]])
  }

  /** `courses.reduce(..., {})`. */
  function GroupBySubject(cs: seq<Course>): (r: Record)
    ensures WellFormed(r)
  {
    if cs == [] then Empty else AddCourse(GroupBySubject(cs[..|cs| - 1]), cs[|cs| - 1])
  }

  /** `Object.entries`: the key/array pairs in key order. */
  function Entries(r: Record): (es: seq<(string, seq<Course>)>)
    requires WellFormed(r)
    ensures |es| == |r.keys|
    ensures forall i :: 0 <= i < |es| ==> es[i].0 == r.keys[i] && es[i].1 == r.values[r.keys[i]]
  {
    seq(|r.keys|, i requires 0 <= i < |r.keys| => (r.keys[i], r.values[r.keys[i]]))
  }

  /** The courses of subject `s`, in catalogue order. */
  function OfSubject(cs: seq<Course>, s: string): (r: seq<Course>)
    ensures forall k :: 0 <= k < |r| ==> r[k].subject == s && r[k] in cs
    ensures forall i :: 0 <= i < |cs| && cs[i].subject == s ==> cs[i] in r
  {
    if cs == [] then []
    else
      var init := cs[..|cs| - 1];
      var r := OfSubject(init, s);
      assert cs == init + [cs[|cs| - 1]];
      if cs[|cs| - 1].subject == s then r + [cs[|cs| - 1]] else r
  }

  lemma OfSubjectSnoc(cs: seq<Course>, c: Course, s: string)
    ensures OfSubject(cs + [c], s) == OfSubject(cs, s) + (if c.subject == s then [c] else [])
  {
    assert (cs + [c])[..|cs|] == cs;
  }

  /** The keys are the subjects in order of first appearance. */
  lemma {:induction false} GroupKeys(cs: seq<Course>)
    ensures GroupBySubject(cs).keys == Seqs.Dedup(Subjects(cs))
  {
    if cs != [] {
      var init, c := cs[..|cs| - 1], cs[|cs| - 1];
      GroupKeys(init);
      assert Subjects(init) == Subjects(cs)[..|cs| - 1];
    }
  }

  /** One step of the reduce adds the course's subject to the subjects with an array. */
  lemma ValuesStep(init: seq<Course>, c: Course)
    ensures GroupBySubject(init + [c]).values.Keys == GroupBySubject(init).values.Keys + {c.subject}
  {
    GroupSnoc(init, c);
  }

  lemma HasSubjectStep(init: seq<Course>, c: Course, s: string)
    ensures (exists i :: 0 <= i < |init + [c]| && (init + [c])[i].subject == s) <==>
              (exists i :: 0 <= i < |init| && init[i].subject == s) || c.subject == s
  {
    var cs := init + [c];
    if exists i :: 0 <= i < |init| && init[i].subject == s {
      var i :| 0 <= i < |init| && init[i].subject == s;
      assert cs[i].subject == s;
    }
    if c.subject == s {
      assert cs[|init|].subject == s;
    }
    if exists i :: 0 <= i < |cs| && cs[i].subject == s {
      var i :| 0 <= i < |cs| && cs[i].subject == s;
      if i < |init| {
        assert init[i].subject == s;
      }
    }
  }

  /** There is an array for a subject exactly when some course has that subject. */
  lemma {:induction false} GroupSubjects(cs: seq<Course>)
    ensures forall s :: s in GroupBySubject(cs).values <==> exists i :: 0 <= i < |cs| && cs[i].subject == s
  {
    if cs != [] {
      var init, c := cs[..|cs| - 1], cs[|cs| - 1];
      assert cs == init + [c];
      GroupSubjects(init);
      ValuesStep(init, c);
      forall s ensures s in GroupBySubject(cs).values <==> exists i :: 0 <= i < |cs| && cs[i].subject == s {
        HasSubjectStep(init, c, s);
      }
    }
  }

  lemma GroupSnoc(cs: seq<Course>, c: Course)
    ensures GroupBySubject(cs + [c]) == AddCourse(GroupBySubject(cs), c)
  {
    var xs := cs + [c];
    assert xs != [] && xs[|xs| - 1] == c;
    assert xs[..|xs| - 1] == cs;
  }

  /** A subject no course has selects nothing. */
  lemma OfAbsentSubject(cs: seq<Course>, s: string)
    requires forall i :: 0 <= i < |cs| ==> cs[i].subject != s
    ensures OfSubject(cs, s) == []
  {
  }

  /** One step of the reduce keeps every array equal to the courses of its subject. */
  lemma MembersStep(acc: Record, cs: seq<Course>, c: Course, s: string)
    requires WellFormed(acc)
    requires forall t :: t in acc.values ==> acc.values[t] == OfSubject(cs, t)
    requires s !in acc.values ==> OfSubject(cs, s) == []
    requires s in AddCourse(acc, c).values
    ensures AddCourse(acc, c).values[s] == OfSubject(cs + [c], s)
  {
    OfSubjectSnoc(cs, c, s);
  }

  /** Each subject's array holds exactly the courses of that subject, in catalogue order. */
  lemma {:induction false} GroupMembers(cs: seq<Course>)
    ensures forall s :: s in GroupBySubject(cs).values ==> GroupBySubject(cs).values[s] == OfSubject(cs, s)
  {
    if cs != [] {
      var init, c := cs[..|cs| - 1], cs[|cs| - 1];
      assert cs == init + [c];
      GroupMembers(init);
      GroupSubjects(init);
      GroupSnoc(init, c);
      var acc := GroupBySubject(init);
      forall s | s in GroupBySubject(cs).values ensures GroupBySubject(cs).values[s] == OfSubject(cs, s) {
        if s !in acc.values {
          OfAbsentSubject(init, s);
        }
        MembersStep(acc, init, c, s);
      }
    }
  }

  /** The sum of the array lengths, in key order. */
  function Total(keys: seq<string>, values: map<string, seq<Course>>): nat
    requires forall k :: k in keys ==> k in values
  {
    if keys == [] then 0 else |values[keys[0]]| + Total(keys[1..], values)
  }

  lemma {:induction false} TotalOther(keys: seq<string>, values: map<string, seq<Course>>, k: string, v: seq<Course>)
    requires forall x :: x in keys ==> x in values
    requires k !in keys
    ensures Total(keys, values[k := v]) == Total(keys, values)
  {
    if keys != [] {
      TotalOther(keys[1..], values, k, v);
    }
  }

  lemma {:induction false} TotalPush(keys: seq<string>, values: map<string, seq<Course>>, k: string, c: Course)
    requires forall x :: x in keys ==> x in values
    requires Seqs.Distinct(keys) && k in keys
    ensures Total(keys, values[k := values[k] + [c]]) == Total(keys, values) + 1
  {
    if keys[0] == k {
      assert k !in keys[1..];
      TotalOther(keys[1..], values, k, values[k] + [c]);
    } else {
      TotalPush(keys[1..], values, k, c);
    }
  }

  lemma {:induction false} TotalAppend(keys: seq<string>, values: map<string, seq<Course>>, k: string, c: Course)
    requires forall x :: x in keys ==> x in values
    requires k !in keys
    ensures Total(keys + [k], values[k := [c]]) == Total(keys, values) + 1
  {
    if keys == [] {
      assert [k][1..] == [];
    } else {
      assert (keys + [k])[1..] == keys[1..] + [k];
      TotalAppend(keys[1..], values, k, c);
    }
  }

  /** The array lengths add up to the number of courses. */
  lemma {:induction false} TotalIsCourseCount(cs: seq<Course>)
    ensures Total(GroupBySubject(cs).keys, GroupBySubject(cs).values) == |cs|
  {
    if cs != [] {
      var init, c := cs[..|cs| - 1], cs[|cs| - 1];
      TotalIsCourseCount(init);
      GroupKeys(init);
      var acc := GroupBySubject(init);
      if c.subject in acc.values {
        TotalPush(acc.keys, acc.values, c.subject, c);
      } else {
        TotalAppend(acc.keys, acc.values, c.subject, c);
      }
    }
  }

  /** Every course is in its own subject's array and in no other. */
  lemma CourseInOwnGroup(cs: seq<Course>, i: nat)
    requires i < |cs|
    ensures cs[i].subject in GroupBySubject(cs).values
    ensures cs[i] in GroupBySubject(cs).values[cs[i].subject]
    ensures forall s :: s in GroupBySubject(cs).values && cs[i] in GroupBySubject(cs).values[s] ==> s == cs[i].subject
  {
    GroupSubjects(cs);
    GroupMembers(cs);
  }

  /** A course with a subject not seen yet opens a one-course array under a new last key. */
  lemma GroupSnocNew(cs: seq<Course>, c: Course)
    requires c.subject !in GroupBySubject(cs).values
    ensures GroupBySubject(cs + [c]).keys == GroupBySubject(cs).keys + [c.subject]
    ensures c.subject in GroupBySubject(cs + [c]).values && GroupBySubject(cs + [c]).values[c.subject] == [c]
  {
    GroupSnoc(cs, c);
  }

  /** A course whose subject already has an array is pushed onto it; the keys stay. */
  lemma GroupSnocSeen(cs: seq<Course>, c: Course)
    requires c.subject in GroupBySubject(cs).values
    ensures GroupBySubject(cs + [c]).keys == GroupBySubject(cs).keys
    ensures c.subject in GroupBySubject(cs + [c]).values
    ensures GroupBySubject(cs + [c]).values[c.subject] == GroupBySubject(cs).values[c.subject] + [c]
  {
    GroupSnoc(cs, c);
  }

  /** The arrays of the other subjects are left alone. */
  lemma GroupSnocKeep(cs: seq<Course>, c: Course, k: string)
    requires k in GroupBySubject(cs).values && k != c.subject
    ensures k in GroupBySubject(cs + [c]).values && GroupBySubject(cs + [c]).values[k] == GroupBySubject(cs).values[k]
  {
    GroupSnoc(cs, c);
  }

  lemma GroupOne(a: Course)
    ensures GroupBySubject([a]).keys == [a.subject]
    ensures a.subject in GroupBySubject([a]).values && GroupBySubject([a]).values[a.subject] == [a]
  {
    GroupSnocNew([], a);
    assert [a] == [] + [a];
  }

  lemma GroupTwo(a: Course, b: Course)
    requires a.subject != b.subject
    ensures GroupBySubject([a, b]).keys == [a.subject, b.subject]
    ensures a.subject in GroupBySubject([a, b]).values && GroupBySubject([a, b]).values[a.subject] == [a]
    ensures b.subject in GroupBySubject([a, b]).values && GroupBySubject([a, b]).values[b.subject] == [b]
  {
    GroupOne(a);
    assert b.subject !in GroupBySubject([a]).keys;
    GroupSnocNew([a], b);
    GroupSnocKeep([a], b, a.subject);
    assert [a, b] == [a] + [b];
    assert [a.subject] + [b.subject] == [a.subject, b.subject];
  }

  lemma GroupThree(a: Course, b: Course, c: Course)
    requires a.subject != b.subject && b.subject == c.subject
    ensures GroupBySubject([a, b, c]).keys == [a.subject, b.subject]
    ensures a.subject in GroupBySubject([a, b, c]).values && GroupBySubject([a, b, c]).values[a.subject] == [a]
    ensures b.subject in GroupBySubject([a, b, c]).values && GroupBySubject([a, b, c]).values[b.subject] == [b, c]
  {
    GroupTwo(a, b);
    GroupSnocSeen([a, b], c);
    GroupSnocKeep([a, b], c, a.subject);
    assert [a, b, c] == [a, b] + [c];
    assert [b] + [c] == [b, c];
  }

  /** Four courses with subjects A, B, B, C (A, B, C distinct) group into A, B with two, C. */
  lemma GroupFour(a: Course, b: Course, c: Course, d: Course)
    requires b.subject == c.subject
    requires a.subject != b.subject && a.subject != d.subject && b.subject != d.subject
    ensures GroupBySubject([a, b, c, d]).keys == [a.subject, b.subject, d.subject]
    ensures GroupBySubject([a, b, c, d]).values[a.subject] == [a]
    ensures GroupBySubject([a, b, c, d]).values[b.subject] == [b, c]
    ensures GroupBySubject([a, b, c, d]).values[d.subject] == [d]
  {
    GroupThree(a, b, c);
    assert d.subject !in GroupBySubject([a, b, c]).keys;
    GroupSnocNew([a, b, c], d);
    GroupSnocKeep([a, b, c], d, a.subject);
    GroupSnocKeep([a, b, c], d, b.subject);
    assert [a, b, c, d] == [a, b, c] + [d];
    assert [a.subject, b.subject] + [d.subject] == [a.subject, b.subject, d.subject];
  }

  /** The shipped catalogue yields three groups: Math, then Science with two courses, then History. */
  lemma ShippedGroups()
    ensures Entries(GroupBySubject(Courses)) ==
              [("Math", [Calculus]), ("Science", [Chemistry, Physics]), ("History", [WorldHistory])]
  {
    GroupFour(Calculus, Chemistry, Physics, WorldHistory);
  }
}
