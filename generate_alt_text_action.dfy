/** The "Generate alt text" element action of the asset index: every
    selected asset the user may save gets the fallback alt text at once,
    and the action reports whether every one of them succeeded. */
module GenerateAltTextAction {
  import opened Wrappers
  import Php
  import opened Assets

  /** A selected element: an asset (by id) or an element of another type. */
  datatype Element = AssetElement(id: int) | OtherElement

  /** What the action reads from the CMS: the asset re-read by id on the
      query's site (absent when that returns null), the volumes the user
      may save to, and the store's save. */
  datatype Env = Env(refetch: map<int, AssetRecord>, permitted: set<int>, save: AssetRecord -> SaveOutcome)

  const NoPermission := "You don't have permission to edit assets in this volume"

  /** The accumulators `$success` and `$failMessage`, the records handed to
      the save so far, and whether the loop died on a null re-read
      (`$asset->getVolume()` on null is an `Error`, which no `catch
      (\Exception)` handles). */
  datatype Progress = Progress(success: bool, failMessage: string, saves: seq<AssetRecord>, crashed: bool)

  const Start := Progress(true, "", [], false)

  /** The record a permitted asset is saved as: the fallback overwrites
      any existing alt text. */
  function Rewritten(a: AssetRecord): (r: AssetRecord)
    ensures r.alt == Some(Fallback(a.filename)) && r == a.(alt := r.alt)
  {
    a.(alt := Some(Fallback(a.filename)))
  }

  /** One iteration of the `foreach`. */
  function Step(p: Progress, e: Element, env: Env): Progress {
    if p.crashed || e.OtherElement? then p
    else if e.id !in env.refetch then p.(crashed := true)
    else
      var a := env.refetch[e.id];
      if a.volume !in env.permitted then p.(success := false, failMessage := NoPermission)
      else
        var record := Rewritten(a);
        var outcome := env.save(record);
        if outcome == Saved then p.(saves := p.saves + [record])
        else p.(success := false, failMessage := SaveFailure(outcome), saves := p.saves + [record])
  }

  /** The loop over the selected elements, element by element. */
  function Fold(es: seq<Element>, env: Env): Progress {
    if |es| == 0 then Start else Step(Fold(es[..|es| - 1], env), es[|es| - 1], env)
  }

  /** The result of `performAction`: the exception for a missing user, the
      `Error` of a null re-read (after the saves made before it), or the
      returned flag with the message set. */
  datatype ActionResult =
    | NotLoggedIn
    | Crashed(saves: seq<AssetRecord>)
    | Finished(success: bool, message: string, saves: seq<AssetRecord>)

  function Message(success: bool, failMessage: string): string {
    if success then "Alt text generated successfully." else "Failed to generate alt text: " + failMessage
  }

  function Action(loggedIn: bool, es: seq<Element>, env: Env): ActionResult {
    if !loggedIn then NotLoggedIn
    else
      var p := Fold(es, env);
      if p.crashed then Crashed(p.saves) else Finished(p.success, Message(p.success, p.failMessage), p.saves)
  }

  // ---------------------------------------------------------------------
  // Properties of the loop

  /** Whether an element makes the action fail, and with what text. */
  predicate Fails(e: Element, env: Env) {
    e.AssetElement? && e.id in env.refetch
    && (env.refetch[e.id].volume !in env.permitted || env.save(Rewritten(env.refetch[e.id])) != Saved)
  }

  function FailureText(e: Element, env: Env): string
    requires Fails(e, env)
  {
    var a := env.refetch[e.id];
    if a.volume !in env.permitted then NoPermission else SaveFailure(env.save(Rewritten(a)))
  }

  /** Whether the re-read of an element comes back null. */
  predicate Vanished(e: Element, env: Env) {
    e.AssetElement? && e.id !in env.refetch
  }

  /** Whether an element's asset is handed to the save. */
  predicate SavedBy(e: Element, env: Env) {
    e.AssetElement? && e.id in env.refetch && env.refetch[e.id].volume in env.permitted
  }

  /** One iteration in terms of the element alone. */
  lemma StepShape(p: Progress, e: Element, env: Env)
    requires !p.crashed
    ensures Step(p, e, env).crashed <==> Vanished(e, env)
    ensures !Vanished(e, env) ==> Step(p, e, env).success == (p.success && !Fails(e, env))
    ensures !Vanished(e, env) && Fails(e, env) ==> Step(p, e, env).failMessage == FailureText(e, env)
    ensures !Fails(e, env) ==> Step(p, e, env).failMessage == p.failMessage
  {
  }

  /** What one iteration adds to the saves. */
  lemma StepSaves(p: Progress, e: Element, env: Env)
    ensures Step(p, e, env).saves
            == p.saves + if !p.crashed && SavedBy(e, env) then [Rewritten(env.refetch[e.id])] else []
  {
  }

  /** Once the loop has died nothing more happens. */
  lemma {:induction false} CrashIsFinal(xs: seq<Element>, ys: seq<Element>, env: Env)
    requires Fold(xs, env).crashed
    ensures Fold(xs + ys, env) == Fold(xs, env)
    decreases |ys|
  {
    if |ys| == 0 {
      assert xs + ys == xs;
    } else {
      var init := ys[..|ys| - 1];
      assert (xs + ys)[..|xs + ys| - 1] == xs + init;
      CrashIsFinal(xs, init, env);
    }
  }

  /** The loop dies exactly at the first asset whose re-read is null. */
  lemma {:induction false} CrashedIff(es: seq<Element>, env: Env)
    ensures Fold(es, env).crashed <==> exists k :: 0 <= k < |es| && Vanished(es[k], env)
  {
    if |es| > 0 {
      var init := es[..|es| - 1];
      CrashedIff(init, env);
      if exists k :: 0 <= k < |init| && Vanished(init[k], env) {
        var k :| 0 <= k < |init| && Vanished(init[k], env);
        assert es[k] == init[k];
      }
      if exists k :: 0 <= k < |es| && Vanished(es[k], env) {
        var k :| 0 <= k < |es| && Vanished(es[k], env);
        if k < |init| {
          assert init[k] == es[k];
        }
      }
    }
  }

  /** Without a crash, `$success` stays true exactly when no element
      fails. */
  lemma {:induction false} SuccessIff(es: seq<Element>, env: Env)
    requires !Fold(es, env).crashed
    ensures Fold(es, env).success <==> forall k :: 0 <= k < |es| ==> !Fails(es[k], env)
  {
    if |es| > 0 {
      var init, e := es[..|es| - 1], es[|es| - 1];
      var p := Fold(init, env);
      assert !p.crashed && !Vanished(e, env) && Fold(es, env).success == (p.success && !Fails(e, env)) by {
        assert Fold(es, env) == Step(p, e, env);
        assert p.crashed ==> Step(p, e, env) == p;
        StepShape(p, e, env);
      }
      SuccessIff(init, env);
      assert forall k :: 0 <= k < |init| ==> init[k] == es[k];
    }
  }

  /** Without a crash, after a failure `$failMessage` is the text of the
      last failing element: later failures overwrite earlier ones. */
  lemma {:induction false} LastFailureWins(es: seq<Element>, env: Env)
    requires !Fold(es, env).crashed && !Fold(es, env).success
    ensures exists k :: 0 <= k < |es| && Fails(es[k], env)
                        && Fold(es, env).failMessage == FailureText(es[k], env)
                        && forall j :: k < j < |es| ==> !Fails(es[j], env)
  {
    var init, e := es[..|es| - 1], es[|es| - 1];
    var p := Fold(init, env);
    assert !p.crashed && !Vanished(e, env) && Fold(es, env).success == (p.success && !Fails(e, env))
           && (Fails(e, env) ==> Fold(es, env).failMessage == FailureText(e, env))
           && (!Fails(e, env) ==> Fold(es, env).failMessage == p.failMessage) by {
      assert Fold(es, env) == Step(p, e, env);
      assert p.crashed ==> Step(p, e, env) == p;
      StepShape(p, e, env);
    }
    var k := |es| - 1;
    if Fails(e, env) {
      assert es[k] == e;
    } else {
      LastFailureWins(init, env);
      k :| 0 <= k < |init| && Fails(init[k], env)
           && p.failMessage == FailureText(init[k], env)
           && forall j :: k < j < |init| ==> !Fails(init[j], env);
      assert es[k] == init[k];
      assert forall j :: k < j < |es| ==> !Fails(es[j], env) by {
        assert forall j :: k < j < |init| ==> es[j] == init[j];
      }
    }
    assert Fails(es[k], env) && Fold(es, env).failMessage == FailureText(es[k], env);
  }

  /** `r` is the rewritten re-read of a selected element whose volume
      the user may save to. */
  predicate FromSelection(r: AssetRecord, es: seq<Element>, env: Env) {
    exists j :: 0 <= j < |es| && SavedBy(es[j], env) && r == Rewritten(env.refetch[es[j].id])
  }

  /** Every save comes from the selection. */
  lemma {:induction false} SavesComeFromSelection(es: seq<Element>, env: Env)
    ensures forall k :: 0 <= k < |Fold(es, env).saves| ==> FromSelection(Fold(es, env).saves[k], es, env)
  {
    if |es| > 0 {
      var init, e := es[..|es| - 1], es[|es| - 1];
      SavesComeFromSelection(init, env);
      StepSaves(Fold(init, env), e, env);
      var before, after := Fold(init, env).saves, Fold(es, env).saves;
      var added := !Fold(init, env).crashed && SavedBy(e, env);
      assert after == before + if added then [Rewritten(env.refetch[e.id])] else [];
      forall k | 0 <= k < |after|
        ensures FromSelection(after[k], es, env)
      {
        if k < |before| {
          assert FromSelection(before[k], init, env);
          var j :| 0 <= j < |init| && SavedBy(init[j], env) && before[k] == Rewritten(env.refetch[init[j].id]);
          assert es[j] == init[j] && after[k] == before[k];
        } else {
          var j := |es| - 1;
          assert es[j] == e && SavedBy(es[j], env) && after[k] == Rewritten(env.refetch[es[j].id]);
        }
      }
    }
  }

  /** The rewritten re-reads of the selected elements the user may save,
      in selection order. */
  function PermittedRewrites(es: seq<Element>, env: Env): seq<AssetRecord> {
    if |es| == 0 then []
    else
      var e := es[|es| - 1];
      PermittedRewrites(es[..|es| - 1], env) + if SavedBy(e, env) then [Rewritten(env.refetch[e.id])] else []
  }

  /** Every permitted element is saved, in order: without a crash the
      saves are the permitted rewrites of the whole selection, and after a
      crash those of the elements before the first null re-read. */
  lemma {:induction false} SavesInOrder(es: seq<Element>, env: Env)
    ensures !Fold(es, env).crashed ==> Fold(es, env).saves == PermittedRewrites(es, env)
    ensures Fold(es, env).crashed ==>
              exists k :: 0 <= k < |es| && Vanished(es[k], env)
                          && (forall j :: 0 <= j < k ==> !Vanished(es[j], env))
                          && Fold(es, env).saves == PermittedRewrites(es[..k], env)
  {
    if |es| > 0 {
      var init, e := es[..|es| - 1], es[|es| - 1];
      var p := Fold(init, env);
      assert Fold(es, env) == Step(p, e, env);
      SavesInOrder(init, env);
      StepSaves(p, e, env);
      if p.crashed {
        assert Fold(es, env) == p;
        var k :| 0 <= k < |init| && Vanished(init[k], env)
                 && (forall j :: 0 <= j < k ==> !Vanished(init[j], env))
                 && p.saves == PermittedRewrites(init[..k], env);
        assert es[k] == init[k] && es[..k] == init[..k];
        assert forall j :: 0 <= j < k ==> es[j] == init[j];
      } else {
        StepShape(p, e, env);
        if Vanished(e, env) {
          var k := |es| - 1;
          assert es[..k] == init && es[k] == e;
          CrashedIff(init, env);
          assert forall j :: 0 <= j < k ==> es[j] == init[j];
        }
      }
    }
  }

  /** At most one save per selected element. */
  lemma {:induction false} SavesBounded(es: seq<Element>, env: Env)
    ensures |Fold(es, env).saves| <= |es|
  {
    if |es| > 0 {
      SavesBounded(es[..|es| - 1], env);
      StepSaves(Fold(es[..|es| - 1], env), es[|es| - 1], env);
    }
  }

  /** Every save is of a permitted asset and carries the fallback alt
      text; nothing else is saved. */
  lemma SavesArePermittedFallbacks(es: seq<Element>, env: Env)
    ensures |Fold(es, env).saves| <= |es|
    ensures forall k :: 0 <= k < |Fold(es, env).saves| ==>
              Fold(es, env).saves[k].volume in env.permitted
              && Fold(es, env).saves[k].alt == Some(Fallback(Fold(es, env).saves[k].filename))
  {
    SavesBounded(es, env);
    SavesComeFromSelection(es, env);
    var saves := Fold(es, env).saves;
    forall k | 0 <= k < |saves|
      ensures saves[k].volume in env.permitted && saves[k].alt == Some(Fallback(saves[k].filename))
    {
      assert FromSelection(saves[k], es, env);
      var j :| 0 <= j < |es| && SavedBy(es[j], env) && saves[k] == Rewritten(env.refetch[es[j].id]);
    }
  }

  /** The returned flag is true exactly when the loop ran to the end and
      no element failed; a failure reply names the last failure. */
  lemma ActionOutcome(es: seq<Element>, env: Env)
    ensures Action(true, es, env).Finished? <==> forall k :: 0 <= k < |es| ==> !Vanished(es[k], env)
    ensures Action(true, es, env).Finished? ==>
              (Action(true, es, env).success <==> forall k :: 0 <= k < |es| ==> !Fails(es[k], env))
    ensures Action(true, es, env).Finished? && !Action(true, es, env).success ==>
              exists k :: 0 <= k < |es| && Fails(es[k], env)
                          && Action(true, es, env).message == "Failed to generate alt text: " + FailureText(es[k], env)
  {
    CrashedIff(es, env);
    if !Fold(es, env).crashed {
      SuccessIff(es, env);
      if !Fold(es, env).success {
        LastFailureWins(es, env);
      }
    }
  }

  // ---------------------------------------------------------------------
  // The action

  /** `performAction`: each permitted asset is re-read into an element whose
      `alt` is assigned before the save. */
  method PerformAction(loggedIn: bool, es: seq<Element>, env: Env) returns (r: ActionResult)
    ensures r == Action(loggedIn, es, env)
  {
    if !loggedIn {
      return NotLoggedIn;
    }
    var success, failMessage, saves := true, "", [];
    for i := 0 to |es|
      invariant Fold(es[..i], env) == Progress(success, failMessage, saves, false)
    {
      assert es[..i + 1][..i] == es[..i];
      var e := es[i];
      if e.OtherElement? {
        continue;
      }
      if e.id !in env.refetch {
        assert Fold(es[..i + 1], env).crashed;
        CrashIsFinal(es[..i + 1], es[i + 1..], env);
        assert es[..i + 1] + es[i + 1..] == es;
        return Crashed(saves);
      }
      var asset := new Asset(env.refetch[e.id]);
      if asset.volume !in env.permitted {
        failMessage := NoPermission;
        success := false;
        continue;
      }
      asset.alt := Some(Fallback(asset.filename));
      var record := asset.Record();
      var outcome := env.save(record);
      saves := saves + [record];
      if outcome != Saved {
        failMessage := SaveFailure(outcome);
        success := false;
      }
    }
    assert es[..|es|] == es;
    r := Finished(success, Message(success, failMessage), saves);
  }
}
