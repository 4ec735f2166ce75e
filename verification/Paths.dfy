/** Paths of the delivery system: what may lead from one state to another. */
module Paths {
  import opened Delivery

  ghost predicate IsPath(r: Run) {
    && |r.states| == |r.steps| + 1
    && forall i :: 0 <= i < |r.steps| ==> Next(r.states[i], r.steps[i], r.states[i + 1])
  }

  ghost predicate Leads(r: Run, w: World, w': World) {
    IsPath(r) && r.states[0] == w && r.states[|r.steps|] == w'
  }

  ghost predicate Reaches(w: World, w': World) {
    exists r: Run :: Leads(r, w, w')
  }

  lemma ReachesSelf(w: World)
    ensures Reaches(w, w)
  {
    assert Leads(Run([w], []), w, w);
  }

  lemma OneMore(w: World, w': World, s: Step, w'': World)
    requires Reaches(w, w') && Next(w', s, w'')
    ensures Reaches(w, w'')
  {
    hide Next;
    var r :| Leads(r, w, w');
    var longer := Run(r.states + [w''], r.steps + [s]);
    forall i | 0 <= i < |longer.steps| ensures Next(longer.states[i], longer.steps[i], longer.states[i + 1]) {
      if i < |r.steps| {
        assert Next(r.states[i], r.steps[i], r.states[i + 1]);
      }
    }
    assert Leads(longer, w, w'');
  }

  /** One more step at the end of a path, and the invariant with it. */
  lemma StepOn(start: World, w: World, s: Step)
    requires Reaches(start, w) && Inv(w) && Enabled(w, s)
    ensures Reaches(start, Apply(w, s)) && Inv(Apply(w, s))
  {
    hide Inv, Reaches, Apply;
    OneMore(start, w, s, Apply(w, s));
    StepKeeps(w, s, Apply(w, s));
  }

  lemma InitKeeps(own: set<string>, clock: int)
    ensures Inv(Init(own, clock))
  {
    RunKeeps(Run([Init(own, clock)], []), 0);
  }
}
