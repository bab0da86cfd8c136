/** The patch tool: dry run of every section in memory, then writes with rollback. */
module PatchTool {
  import opened PatchApply
  import opened PatchParse

  type Files = map<string, string>

  /** Files by path string, as a workspace backend stores them.  A write may fail, and
      then leaves its file unchanged. */
  class Workspace {
    var files: Files
    /** How many writes have failed so far. */
    ghost var failures: nat

    method WriteText(path: string, content: string) returns (ok: bool)
      modifies this
      ensures files == if ok then old(files)[path := content] else old(files)
      ensures failures == old(failures) + if ok then 0 else 1
    {
      ok := *;
      if ok { files := files[path := content]; } else { failures := failures + 1; }
    }
  }

  datatype Reason = Unsafe | Missing | Unapplied(error: ApplyError)

  /** Targets in order of first appearance, with old and new contents. */
  datatype Plan = Plan(order: seq<string>, originals: Files, resolved: Files)

  datatype Prepared = Ready(plan: Plan) | Refused(path: string, reason: Reason)

  function Prepare(files: Files, inside: string -> bool, ps: seq<FilePatch>, plan: Plan): Prepared
    decreases |ps|
  {
    if ps == [] then Ready(plan)
    else
      var path := ps[0].path;
      if !inside(path) then Refused(path, Unsafe)
      else if path !in plan.resolved && path !in files then Refused(path, Missing)
      else
        var seen := path in plan.resolved;
        var original := if seen then plan.resolved[path] else files[path];
        match ApplyText(original, ps[0].hunks)
        case Err(e) => Refused(path, Unapplied(e))
        case Ok(text) =>
          Prepare(files, inside, ps[1..],
                  Plan(if seen then plan.order else plan.order + [path],
                       if seen then plan.originals else plan.originals[path := original],
                       plan.resolved[path := text]))
  }

  const EMPTY_PLAN := Plan([], map[], map[])

  /* ---- what the plan means, path by path ---- */

  /** The sections of one path applied one after the other. */
  function ApplySections(text: string, ps: seq<FilePatch>, path: string): Applied<string>
    decreases |ps|
  {
    if ps == [] then Ok(text)
    else if ps[0].path != path then ApplySections(text, ps[1..], path)
    else match ApplyText(text, ps[0].hunks)
      case Err(e) => Err(e)
      case Ok(next) => ApplySections(next, ps[1..], path)
  }

  predicate Touches(ps: seq<FilePatch>, path: string) { exists i :: 0 <= i < |ps| && ps[i].path == path }

  /** The plan is consistent with the files it was made from. */
  ghost predicate PlanOk(files: Files, plan: Plan) {
    (forall i :: 0 <= i < |plan.order| ==> plan.order[i] in plan.resolved) &&
    (forall p :: p in plan.resolved <==> p in plan.order) &&
    (forall i, j :: 0 <= i < j < |plan.order| ==> plan.order[i] != plan.order[j]) &&
    (forall p :: p in plan.resolved ==> p in plan.originals && p in files && plan.originals[p] == files[p])
  }

  /** The content of `path` as the dry run currently sees it. */
  function Current(files: Files, plan: Plan, path: string): string
    requires path in files || path in plan.resolved
  {
    if path in plan.resolved then plan.resolved[path] else files[path]
  }

  lemma {:induction false} PreparedPlan(files: Files, inside: string -> bool, ps: seq<FilePatch>, plan: Plan)
    requires PlanOk(files, plan) && Prepare(files, inside, ps, plan).Ready?
    ensures var done := Prepare(files, inside, ps, plan).plan;
            PlanOk(files, done) &&
            (forall p :: p in done.resolved <==> p in plan.resolved || Touches(ps, p)) &&
            (forall p :: p in done.resolved ==>
               ApplySections(Current(files, plan, p), ps, p) == Ok(done.resolved[p]))
    decreases |ps|
  {
    hide ApplyText;
    if ps != [] {
      var path := ps[0].path;
      var seen := path in plan.resolved;
      var original := if seen then plan.resolved[path] else files[path];
      var text := ApplyText(original, ps[0].hunks).value;
      var next := Plan(if seen then plan.order else plan.order + [path],
                       if seen then plan.originals else plan.originals[path := original],
                       plan.resolved[path := text]);
      PlanStep(files, plan, path, text);
      PreparedPlan(files, inside, ps[1..], next);
      var done := Prepare(files, inside, ps, plan).plan;
      forall p ensures Touches(ps, p) <==> p == path || Touches(ps[1..], p) { TouchesTail(ps, p); }
      forall p | p in done.resolved
        ensures ApplySections(Current(files, plan, p), ps, p) == Ok(done.resolved[p])
      {
        assert p in files;
        assert Current(files, next, p) == if p == path then text else Current(files, plan, p);
      }
    }
  }

  lemma TouchesTail(ps: seq<FilePatch>, p: string)
    requires ps != []
    ensures Touches(ps, p) <==> p == ps[0].path || Touches(ps[1..], p)
  {
    if Touches(ps, p) {
      var i :| 0 <= i < |ps| && ps[i].path == p;
      if i > 0 { assert ps[1..][i - 1].path == p; }
    }
    if Touches(ps[1..], p) {
      var i :| 0 <= i < |ps[1..]| && ps[1..][i].path == p;
      assert ps[i + 1].path == p;
    }
    if p == ps[0].path { assert ps[0].path == p; }
  }

  lemma PlanStep(files: Files, plan: Plan, path: string, text: string)
    requires PlanOk(files, plan) && (path in plan.resolved || path in files)
    ensures var seen := path in plan.resolved;
            PlanOk(files, Plan(if seen then plan.order else plan.order + [path],
                               if seen then plan.originals else plan.originals[path := files[path]],
                               plan.resolved[path := text]))
  {}

  /** `final` holds every patched file and nothing else has changed. */
  ghost predicate AllPatched(files: Files, ps: seq<FilePatch>, final: Files) {
    final.Keys == files.Keys &&
    forall p :: p in files ==> Ok(final[p]) == ApplySections(files[p], ps, p)
  }

  lemma {:induction false} UntouchedSections(text: string, ps: seq<FilePatch>, path: string)
    requires !Touches(ps, path)
    ensures ApplySections(text, ps, path) == Ok(text)
    decreases |ps|
  {
    if ps != [] {
      TouchesTail(ps, path);
      UntouchedSections(text, ps[1..], path);
    }
  }

  /** A path may be patched: it is inside the workspace, exists, and its sections apply. */
  predicate SectionsApply(files: Files, inside: string -> bool, ps: seq<FilePatch>, plan: Plan, path: string) {
    inside(path) && (path in plan.resolved || path in files) &&
    ApplySections(Current(files, plan, path), ps, path).Ok?
  }

  /** The dry run succeeds exactly when every touched path can be patched on its own. */
  lemma {:induction false} ReadyIff(files: Files, inside: string -> bool, ps: seq<FilePatch>, plan: Plan)
    requires PlanOk(files, plan)
    ensures Prepare(files, inside, ps, plan).Ready? <==>
            forall p :: Touches(ps, p) ==> SectionsApply(files, inside, ps, plan, p)
    decreases |ps|
  {
    hide ApplyText, Touches, PlanOk;
    NothingTouched();
    if ps != [] {
      var path := ps[0].path;
      TouchesTail(ps, path);
      if inside(path) && (path in plan.resolved || path in files) && ApplyText(Current(files, plan, path), ps[0].hunks).Ok? {
        var seen := path in plan.resolved;
        var original := Current(files, plan, path);
        var text := ApplyText(original, ps[0].hunks).value;
        var next := Plan(if seen then plan.order else plan.order + [path],
                         if seen then plan.originals else plan.originals[path := original],
                         plan.resolved[path := text]);
        PlanStep(files, plan, path, text);
        ReadyIff(files, inside, ps[1..], next);
        if !Touches(ps[1..], path) { UntouchedSections(text, ps[1..], path); }
        forall p ensures (Touches(ps, p) <==> p == path || Touches(ps[1..], p)) &&
                         (SectionsApply(files, inside, ps, plan, p) <==> SectionsApply(files, inside, ps[1..], next, p))
        {
          TouchesTail(ps, p);
        }
        assert !Touches(ps[1..], path) ==> SectionsApply(files, inside, ps[1..], next, path);
      }
    }
  }

  lemma NothingTouched()
    ensures forall p :: !Touches([], p)
  {}

  function Elems(s: seq<string>): set<string> { set p | p in s }

  /** The files when exactly the targets in `s` hold their new content. */
  function Overlay(files: Files, resolved: Files, s: set<string>): Files {
    files + map p | p in s && p in resolved :: resolved[p]
  }

  lemma OverlayAll(files: Files, inside: string -> bool, ps: seq<FilePatch>)
    requires Prepare(files, inside, ps, EMPTY_PLAN).Ready?
    ensures var plan := Prepare(files, inside, ps, EMPTY_PLAN).plan;
            AllPatched(files, ps, Overlay(files, plan.resolved, Elems(plan.order)))
  {
    hide Prepare, ApplyText;
    PreparedPlan(files, inside, ps, EMPTY_PLAN);
    var plan := Prepare(files, inside, ps, EMPTY_PLAN).plan;
    var final := Overlay(files, plan.resolved, Elems(plan.order));
    forall p | p in files ensures Ok(final[p]) == ApplySections(files[p], ps, p) {
      if p in plan.resolved {
        assert Current(files, EMPTY_PLAN, p) == files[p];
      } else {
        UntouchedSections(files[p], ps, p);
      }
    }
  }

  datatype Outcome =
    | Malformed
    | Aborted(path: string, reason: Reason)
    | RolledBack(failed: seq<string>)
    | Applied(files: seq<string>)

  class ApplyPatchTool {
    const workspace: Workspace
    const inside: string -> bool
    var undo: Files

    constructor (workspace: Workspace, inside: string -> bool)
      ensures this.workspace == workspace && this.inside == inside && undo == map[]
    {
      this.workspace := workspace;
      this.inside := inside;
      undo := map[];
    }

    /** The dry run: nothing is written. */
    method DryRun(ps: seq<FilePatch>) returns (r: Prepared)
      ensures r == Prepare(workspace.files, inside, ps, EMPTY_PLAN)
    {
      hide ApplyText;
      var files := workspace.files;
      var plan := EMPTY_PLAN;
      for i := 0 to |ps|
        invariant Prepare(files, inside, ps, EMPTY_PLAN) == Prepare(files, inside, ps[i..], plan)
      {
        assert ps[i..][1..] == ps[i + 1..];
        var path := ps[i].path;
        if !inside(path) { return Refused(path, Unsafe); }
        var original;
        if path in plan.resolved {
          original := plan.resolved[path];
        } else {
          if path !in files { return Refused(path, Missing); }
          original := files[path];
          plan := plan.(order := plan.order + [path], originals := plan.originals[path := original]);
        }
        var applied := ApplyFilePatch(original, ps[i].hunks);
        if applied.Err? { return Refused(path, Unapplied(applied.error)); }
        plan := plan.(resolved := plan.resolved[path := applied.value]);
      }
      r := Ready(plan);
    }

    /** Undo the writes of `written`, last first; a path whose undo fails keeps its new content. */
    method Rollback(plan: Plan, written: seq<string>, ghost before: Files) returns (failed: seq<string>)
      requires PlanOk(before, plan) && written <= plan.order
      requires workspace.files == Overlay(before, plan.resolved, Elems(written))
      modifies workspace
      ensures (forall p :: p in failed ==> p in written)
      ensures workspace.files == Overlay(before, plan.resolved, Elems(failed))
      ensures workspace.failures == old(workspace.failures) + |failed|
    {
      hide Overlay, PlanOk, Elems;
      failed := [];
      var k := |written|;
      RollbackStart(written);
      while k > 0
        invariant 0 <= k <= |written|
        invariant forall p :: p in failed ==> p in written[k..]
        invariant workspace.files == Overlay(before, plan.resolved, Elems(written[..k]) + Elems(failed))
        invariant workspace.failures == old(workspace.failures) + |failed|
      {
        k := k - 1;
        var path := written[k];
        RollbackSets(before, plan, written, failed, k);
        var ok := workspace.WriteText(path, plan.originals[path]);
        if ok {
          OverlayUndo(before, plan, Elems(written[..k]) + Elems(failed), path);
        } else {
          failed := failed + [path];
        }
        assert written[k..] == [path] + written[k + 1..];
      }
      RollbackEnd(written, failed);
    }

    /** All or nothing: either every section of every file is in place, or the workspace is
        as it was, except for paths whose rollback write failed and was reported. */
    method Execute(patch: string) returns (r: Outcome)
      modifies this, workspace
      ensures r.Malformed? || r.Aborted? ==> workspace.files == old(workspace.files) && undo == old(undo)
      ensures r.Malformed? <==> ParseText(patch).Bad? || ParseText(patch) == Good([])
      ensures !r.Malformed? ==>
                (r.Aborted? <==>
                 exists p :: Touches(ParseText(patch).value, p) &&
                             !SectionsApply(old(workspace.files), inside, ParseText(patch).value, EMPTY_PLAN, p))
      ensures r.RolledBack? ==> workspace.failures > old(workspace.failures) + |r.failed|
      ensures !r.RolledBack? ==> workspace.failures == old(workspace.failures)
      ensures r.Applied? ==>
                ParseText(patch).Good? &&
                AllPatched(old(workspace.files), ParseText(patch).value, workspace.files)
      ensures r.Applied? ==>
                forall p :: p in r.files ==>
                  p in undo && p in old(workspace.files) && undo[p] == old(workspace.files)[p]
      ensures r.Applied? ==> forall p :: p in r.files <==> Touches(ParseText(patch).value, p)
      ensures r.Applied? ==>
                forall p :: p !in r.files ==> (p in undo <==> p in old(undo)) && (p in undo ==> undo[p] == old(undo)[p])
      ensures r.RolledBack? ==>
                ParseText(patch).Good? && undo == old(undo) &&
                workspace.files.Keys == old(workspace.files).Keys &&
                forall p :: p in workspace.files ==>
                  if p in r.failed
                  then Ok(workspace.files[p]) == ApplySections(old(workspace.files)[p], ParseText(patch).value, p)
                  else workspace.files[p] == old(workspace.files)[p]
      ensures r.RolledBack? && r.failed == [] ==> workspace.files == old(workspace.files)
    {
      hide ParseText, Prepare, ApplySections, ApplyText, PlanOk, SectionsApply, Touches, Overlay;
      var parsed := ParsePatch(patch);
      if parsed.Bad? || parsed.value == [] { return Malformed; }
      var ps := parsed.value;
      var prepared := DryRun(ps);
      EmptyPlanOk(workspace.files);
      ReadyIff(workspace.files, inside, ps, EMPTY_PLAN);
      if prepared.Refused? { return Aborted(prepared.path, prepared.reason); }
      var plan := prepared.plan;
      ghost var before := workspace.files;
      PreparedPlan(before, inside, ps, EMPTY_PLAN);
      r := WriteAll(plan, before);
      OverlayAll(before, inside, ps);
      if r.Applied? {
        UndoOk(before, plan);
        PlanTouches(before, inside, ps);
      } else {
        FailedContents(before, inside, ps, r.failed);
      }
    }

    method WriteAll(plan: Plan, ghost before: Files) returns (r: Outcome)
      requires PlanOk(before, plan) && workspace.files == before
      modifies this, workspace
      ensures r.Applied? || r.RolledBack?
      ensures workspace.failures == old(workspace.failures) + if r.Applied? then 0 else 1 + |r.failed|
      ensures r.Applied? ==>
                r.files == plan.order && undo == old(undo) + plan.originals &&
                workspace.files == Overlay(before, plan.resolved, Elems(plan.order))
      ensures r.RolledBack? ==>
                undo == old(undo) && (forall p :: p in r.failed ==> p in plan.order) &&
                workspace.files == Overlay(before, plan.resolved, Elems(r.failed))
    {
      hide Overlay, PlanOk, Elems;
      var written: seq<string> := [];
      OverlayNothing(before, plan);
      for k := 0 to |plan.order|
        invariant written == plan.order[..k] && undo == old(undo)
        invariant workspace.files == Overlay(before, plan.resolved, Elems(written))
        invariant workspace.failures == old(workspace.failures)
      {
        var path := plan.order[k];
        PlanTarget(before, plan, k);
        var ok := workspace.WriteText(path, plan.resolved[path]);
        if !ok {
          var failed := Rollback(plan, written, before);
          return RolledBack(failed);
        }
        OverlayWrite(before, plan, written, path);
        written := written + [path];
      }
      assert written == plan.order;
      undo := undo + plan.originals;
      r := Applied(written);
    }
  }

  lemma RollbackStart(written: seq<string>)
    ensures Elems(written[..|written|]) + Elems([]) == Elems(written)
  {
    assert written[..|written|] == written;
  }

  lemma RollbackEnd(written: seq<string>, failed: seq<string>)
    ensures Elems(written[..0]) + Elems(failed) == Elems(failed)
  {}

  /** One step of the rollback: which targets still hold their new content. */
  lemma RollbackSets(before: Files, plan: Plan, written: seq<string>, failed: seq<string>, k: nat)
    requires PlanOk(before, plan) && written <= plan.order && k < |written|
    requires forall p :: p in failed ==> p in written[k + 1..]
    ensures var path, others := written[k], Elems(written[..k]) + Elems(failed);
            path in plan.resolved && path in plan.originals && path !in others &&
            Elems(written[..k + 1]) + Elems(failed) == others + {path} &&
            Elems(written[..k]) + Elems(failed + [path]) == others + {path}
  {
    var path := written[k];
    assert plan.order[k] == path;
    assert written[..k + 1] == written[..k] + [path];
    assert path !in written[..k] by {
      assert forall i :: 0 <= i < k ==> written[i] == plan.order[i] && plan.order[i] != plan.order[k];
    }
    assert path !in written[k + 1..] by {
      assert forall i :: k < i < |written| ==> written[i] == plan.order[i] && plan.order[k] != plan.order[i];
    }
  }

  lemma PlanTarget(before: Files, plan: Plan, k: nat)
    requires PlanOk(before, plan) && k < |plan.order|
    ensures plan.order[k] in plan.resolved
  {}

  lemma OverlayNothing(before: Files, plan: Plan)
    ensures Overlay(before, plan.resolved, Elems([])) == before
  {}

  lemma EmptyPlanOk(files: Files)
    ensures PlanOk(files, EMPTY_PLAN)
  {}

  lemma OverlayWrite(before: Files, plan: Plan, written: seq<string>, path: string)
    requires path in plan.resolved
    ensures Overlay(before, plan.resolved, Elems(written))[path := plan.resolved[path]] ==
            Overlay(before, plan.resolved, Elems(written + [path]))
  {}

  lemma OverlayUndo(before: Files, plan: Plan, others: set<string>, path: string)
    requires PlanOk(before, plan) && path in plan.resolved && path !in others
    ensures Overlay(before, plan.resolved, others + {path})[path := plan.originals[path]] ==
            Overlay(before, plan.resolved, others)
  {}

  lemma PlanTouches(files: Files, inside: string -> bool, ps: seq<FilePatch>)
    requires Prepare(files, inside, ps, EMPTY_PLAN).Ready?
    ensures var plan := Prepare(files, inside, ps, EMPTY_PLAN).plan;
            (forall p :: p in plan.order <==> Touches(ps, p)) && forall p :: p in plan.originals ==> p in plan.order
  {
    hide Prepare, ApplySections, Touches;
    PreparedPlan(files, inside, ps, EMPTY_PLAN);
    OriginalsAreTargets(files, inside, ps, EMPTY_PLAN);
  }

  lemma {:induction false} OriginalsAreTargets(files: Files, inside: string -> bool, ps: seq<FilePatch>, plan: Plan)
    requires Prepare(files, inside, ps, plan).Ready? && forall p :: p in plan.originals ==> p in plan.order
    ensures var done := Prepare(files, inside, ps, plan).plan; forall p :: p in done.originals ==> p in done.order
    decreases |ps|
  {
    hide ApplyText;
    if ps != [] {
      var path := ps[0].path;
      var seen := path in plan.resolved;
      var original := if seen then plan.resolved[path] else files[path];
      var text := ApplyText(original, ps[0].hunks).value;
      OriginalsAreTargets(files, inside, ps[1..],
                          Plan(if seen then plan.order else plan.order + [path],
                               if seen then plan.originals else plan.originals[path := original],
                               plan.resolved[path := text]));
    }
  }

  lemma UndoOk(before: Files, plan: Plan)
    requires PlanOk(before, plan)
    ensures forall p :: p in plan.order ==> p in plan.originals && p in before && plan.originals[p] == before[p]
  {}

  lemma FailedContents(files: Files, inside: string -> bool, ps: seq<FilePatch>, failed: seq<string>)
    requires Prepare(files, inside, ps, EMPTY_PLAN).Ready?
    requires forall p :: p in failed ==> p in Prepare(files, inside, ps, EMPTY_PLAN).plan.order
    ensures var now := Overlay(files, Prepare(files, inside, ps, EMPTY_PLAN).plan.resolved, Elems(failed));
            now.Keys == files.Keys &&
            (forall p :: p in now ==>
               if p in failed then Ok(now[p]) == ApplySections(files[p], ps, p) else now[p] == files[p]) &&
            (failed == [] ==> now == files)
  {
    hide Prepare, ApplySections;
    PreparedPlan(files, inside, ps, EMPTY_PLAN);
    var plan := Prepare(files, inside, ps, EMPTY_PLAN).plan;
    var now := Overlay(files, plan.resolved, Elems(failed));
    forall p | p in failed ensures p in files && Ok(now[p]) == ApplySections(files[p], ps, p) {
      assert Current(files, EMPTY_PLAN, p) == files[p];
    }
  }
}
