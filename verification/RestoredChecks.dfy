/** One check and its restored copy: both judge every result alike, but a check restored before
    its first threshold crossing is treated as if it had one. */
module RestoredChecks {
  import opened Types
  import opened Updates
  import opened Containers
  import opened Debounce
  import ActionRuns

  /** An error with an empty text does not survive saving, and a check that has not crossed a threshold
      yet, still the critical it started with, is restored as initialized; nothing else differs. */
  predicate SameCheck(u: Updater, u': Updater) {
    && u' == u.(error := u'.error, initialized := u'.initialized)
    && (u'.error == u.error || (u.error == Some("") && u'.error == None))
    && (u'.initialized == u.initialized || RestoredEarly(u, u'))
  }

  predicate RestoredEarly(u: Updater, u': Updater) {
    !u.initialized && u'.initialized && u.status == Critical
  }

  /** The check was registered with this configuration. */
  predicate ConfiguredAs(u: Updater, c: Config) {
    u.thresholds == UpdaterFrom(c).thresholds && ActionRuns.Configured(u.runner) == UpdaterFrom(c).runner
  }

  /** The check's copy in a new process. */
  function Reloaded(u: Updater, c: Config, now: Time): Updater {
    Load(UpdaterFrom(c), Save(u, now))
  }

  lemma LoadedIsSame(u: Updater, c: Config, now: Time)
    requires ConfiguredAs(u, c) && (u.initialized || u.status == Critical)
    ensures SameCheck(u, Reloaded(u, c, now)) && Reloaded(u, c, now).initialized
  {
  }

  // ---------------------------------------------------------------- one result

  /** A critical result that asks to be announced. */
  predicate Loud(r: Result) {
    r.status == Critical && !r.noNotification
  }

  /** The copy counts, crosses and acts alike, and announces everything but a loud first crossing. */
  lemma JudgeAlike(u: Updater, u': Updater, r: Result, clk: Clock)
    requires SameCheck(u, u')
    ensures var v, v' := Judge(u, r, clk), Judge(u', r, clk);
            && SameCheck(v.next, v'.next) && v'.crossed == v.crossed && v'.act == v.act
            && (RestoredEarly(v.next, v'.next) <==> RestoredEarly(u, u') && !v.crossed)
            && v'.announce == (v.announce && !(RestoredEarly(u, u') && v.crossed && Loud(r)))
            && (v.crossed && Loud(r) && !u.initialized ==> v.announce)
  {
  }

  // ---------------------------------------------------------------- all results

  predicate CrossesFirst(u: Updater, ins: seq<Input>, i: nat)
    requires i < |ins|
  {
    VerdictAt(u, ins, i).crossed && forall j :: 0 <= j < i ==> !VerdictAt(u, ins, j).crossed
  }

  /** The first threshold crossing is a critical that asks to be announced. */
  ghost predicate StartsLoud(u: Updater, ins: seq<Input>) {
    exists i :: 0 <= i < |ins| && CrossesFirst(u, ins, i) && Loud(ins[i].result)
  }

  ghost predicate Crossed(u: Updater, ins: seq<Input>) {
    exists i :: 0 <= i < |ins| && VerdictAt(u, ins, i).crossed
  }

  lemma VerdictsOfPrefix(u: Updater, ins: seq<Input>, k: nat)
    requires k <= |ins|
    ensures forall i :: 0 <= i < k ==> VerdictAt(u, ins[..k], i) == VerdictAt(u, ins, i)
  {
    assert forall i :: 0 <= i < k ==> ins[..k][..i] == ins[..i];
  }

  lemma OneMoreCrossing(u: Updater, ins: seq<Input>)
    requires ins != []
    ensures Crossed(u, ins) <==> Crossed(u, ins[..|ins| - 1]) || VerdictAt(u, ins, |ins| - 1).crossed
  {
    VerdictsOfPrefix(u, ins, |ins| - 1);
  }

  lemma OneMoreFirst(u: Updater, ins: seq<Input>)
    requires ins != []
    ensures CrossesFirst(u, ins, |ins| - 1) <==> !Crossed(u, ins[..|ins| - 1]) && VerdictAt(u, ins, |ins| - 1).crossed
    ensures forall j :: 0 <= j < |ins| - 1 ==> (CrossesFirst(u, ins, j) <==> CrossesFirst(u, ins[..|ins| - 1], j))
  {
    VerdictsOfPrefix(u, ins, |ins| - 1);
  }

  lemma OneMoreStart(u: Updater, ins: seq<Input>)
    requires ins != []
    ensures var i := |ins| - 1;
            StartsLoud(u, ins) <==>
            StartsLoud(u, ins[..i]) || (CrossesFirst(u, ins, i) && Loud(ins[i].result))
  {
    OneMoreFirst(u, ins);
    assert forall j :: 0 <= j < |ins| - 1 ==> ins[..|ins| - 1][j] == ins[j];
  }

  lemma {:induction false} CopyFollows(u: Updater, u': Updater, ins: seq<Input>)
    requires SameCheck(u, u') && RestoredEarly(u, u')
    ensures SameCheck(After(u, ins), After(u', ins))
    ensures RestoredEarly(After(u, ins), After(u', ins)) <==> !Crossed(u, ins)
    ensures !Crossed(u, ins) ==> Announced(u, ins) == []
    ensures Announced(u, ins) == (if StartsLoud(u, ins) then [Critical] else []) + Announced(u', ins)
    decreases |ins|
  {
    if ins != [] {
      var i := |ins| - 1;
      CopyFollows(u, u', ins[..i]);
      OneMoreCrossing(u, ins);
      OneMoreFirst(u, ins);
      OneMoreStart(u, ins);
      JudgeAlike(After(u, ins[..i]), After(u', ins[..i]), ins[i].result, ins[i].clock);
    }
  }

  /** For every list of results after a snapshot taken before the first crossing: the check and its copy
      record the same statuses and start the same actions; what they announce differs exactly if the
      first crossing is an unsilenced critical, and then exactly by that leading alert. */
  lemma {:induction false} EarlySnapshotLosesExactlyTheCriticalAlert(u: Updater, c: Config, now: Time, ins: seq<Input>)
    requires ConfiguredAs(u, c) && !u.initialized && u.status == Critical
    ensures var u' := Reloaded(u, c, now);
            && SameCheck(After(u, ins), After(u', ins))
            && (forall i :: 0 <= i < |ins| ==>
                  VerdictAt(u', ins, i).crossed == VerdictAt(u, ins, i).crossed
                  && VerdictAt(u', ins, i).act == VerdictAt(u, ins, i).act)
            && (Announced(u', ins) == Announced(u, ins) <==> !StartsLoud(u, ins))
            && (StartsLoud(u, ins) ==> Announced(u, ins) == [Critical] + Announced(u', ins))
  {
    var u' := Reloaded(u, c, now);
    LoadedIsSame(u, c, now);
    CopyFollows(u, u', ins);
    forall i | 0 <= i < |ins|
      ensures VerdictAt(u', ins, i).crossed == VerdictAt(u, ins, i).crossed
      ensures VerdictAt(u', ins, i).act == VerdictAt(u, ins, i).act
    {
      CopyFollows(u, u', ins[..i]);
      JudgeAlike(After(u, ins[..i]), After(u', ins[..i]), ins[i].result, ins[i].clock);
    }
    if StartsLoud(u, ins) {
      assert |Announced(u, ins)| == 1 + |Announced(u', ins)|;
    }
  }

  // ---------------------------------------------------------------- from the first result on

  lemma {:induction false} AfterFirst(u: Updater, ins: seq<Input>)
    requires ins != []
    ensures After(u, ins) == After(Judge(u, ins[0].result, ins[0].clock).next, ins[1..])
    decreases |ins|
  {
    if |ins| > 1 {
      AfterFirst(u, ins[..|ins| - 1]);
      assert ins[1..][..|ins| - 2] == ins[..|ins| - 1][1..];
    } else {
      assert ins[..0] == [] && ins[1..] == [];
    }
  }

  lemma VerdictFirst(u: Updater, ins: seq<Input>, i: nat)
    requires i < |ins|
    ensures var v := Judge(u, ins[0].result, ins[0].clock);
            VerdictAt(u, ins, i) == if i == 0 then v else VerdictAt(v.next, ins[1..], i - 1)
  {
    if i == 0 {
      assert ins[..0] == [];
    } else {
      AfterFirst(u, ins[..i]);
      assert ins[..i][1..] == ins[1..][..i - 1];
    }
  }

  lemma StartsLoudFirst(u: Updater, ins: seq<Input>)
    requires ins != []
    ensures var v := Judge(u, ins[0].result, ins[0].clock);
            StartsLoud(u, ins) <==> if v.crossed then Loud(ins[0].result) else StartsLoud(v.next, ins[1..])
  {
    var v, rest := Judge(u, ins[0].result, ins[0].clock), ins[1..];
    forall i | 0 <= i < |ins|
      ensures CrossesFirst(u, ins, i) <==> if i == 0 then v.crossed else !v.crossed && CrossesFirst(v.next, rest, i - 1)
    {
      CrossesFirstMoves(u, ins, i);
    }
    if !v.crossed && StartsLoud(v.next, rest) {
      var i :| 0 <= i < |rest| && CrossesFirst(v.next, rest, i) && Loud(rest[i].result);
      assert CrossesFirst(u, ins, i + 1) && ins[i + 1] == rest[i];
    }
    if v.crossed && Loud(ins[0].result) {
      assert CrossesFirst(u, ins, 0);
    }
  }

  lemma CrossesFirstMoves(u: Updater, ins: seq<Input>, i: nat)
    requires i < |ins|
    ensures var v := Judge(u, ins[0].result, ins[0].clock);
            CrossesFirst(u, ins, i) <==>
            if i == 0 then v.crossed else !v.crossed && CrossesFirst(v.next, ins[1..], i - 1)
  {
    var v, rest := Judge(u, ins[0].result, ins[0].clock), ins[1..];
    forall j | 0 <= j <= i
      ensures VerdictAt(u, ins, j) == if j == 0 then v else VerdictAt(v.next, rest, j - 1)
    {
      VerdictFirst(u, ins, j);
    }
    if i > 0 && CrossesFirst(u, ins, i) {
      assert !VerdictAt(u, ins, 0).crossed;
      assert forall j :: 0 <= j < i - 1 ==> VerdictAt(u, ins, j + 1) == VerdictAt(v.next, rest, j);
    }
  }

  /** The results a run delivers, from its first step on. */
  lemma {:induction false} DeliveredFirst(steps: seq<Step>, name: string)
    requires steps != []
    ensures var first := steps[0];
            Delivered(steps, name) ==
            (if first.Deliver? && first.name == name then [Input(first.result, first.clock)] else []) +
            Delivered(steps[1..], name)
    decreases |steps|
  {
    if |steps| > 1 {
      DeliveredFirst(steps[..|steps| - 1], name);
      assert steps[1..][..|steps| - 2] == steps[..|steps| - 1][1..];
    } else {
      assert steps[..0] == [] && steps[1..] == [];
    }
  }
}
