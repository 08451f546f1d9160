/** Permission classes, overlay paths, and what an action needs before it may run. */
module Permissions {
  import opened Wrappers

  const AUTO_APPLY := {"read", "safe_overlay"}
  const APPROVAL_REQUIRED := {"vault_mutate", "source_mutate", "network_egress", "network", "publish", "shell", "credentials", "approval_required"}
  const KNOWN_CLASSES := AUTO_APPLY + APPROVAL_REQUIRED

  function Normalize(raw: string): string {
    if raw == "network" then "network_egress" else if raw == "approval_required" then "vault_mutate" else raw
  }

  predicate MayAutoApply(cls: string) {
    Normalize(cls) in AUTO_APPLY
  }

  /** The class the executor works with: a missing class counts as a safe overlay write. */
  function ClassOrDefault(cls: string): string {
    if cls == "" then "safe_overlay" else cls
  }

  // ---------------------------------------------------------------- overlay paths

  function ForwardSlashes(path: string): (p: string)
    ensures |p| == |path|
  {
    if path == "" then "" else [if path[0] == '\\' then '/' else path[0]] + ForwardSlashes(path[1..])
  }

  function StripLeading(path: string): string {
    if path != "" && path[0] == '/' then StripLeading(path[1..]) else path
  }

  function Cleaned(path: string): string {
    StripLeading(ForwardSlashes(path))
  }

  /** The pieces between slashes. */
  function Segments(p: string): seq<string> {
    if p == "" then [""]
    else if p[0] == '/' then [""] + Segments(p[1..])
    else
      var rest := Segments(p[1..]);
      if rest == [] then [[p[0]]] else [[p[0]] + rest[0]] + rest[1..]
  }

  const WORKER_ROOTS := [".brainflow/artifacts/", ".brainflow/workflows/", ".brainflow/graphs/", ".brainflow/templates/", "artifacts/"]
  const HOST_ROOTS := WORKER_ROOTS + [".brainflow/runs/"]

  predicate Under(p: string, roots: seq<string>) {
    exists i :: 0 <= i < |roots| && roots[i] <= p
  }

  predicate SafeUnder(path: string, roots: seq<string>) {
    var p := Cleaned(path);
    ".." !in Segments(p) && Under(p, roots)
  }

  /** The worker's check of an auto-apply path. */
  predicate AssertPathSafeOverlay(path: string) {
    SafeUnder(path, WORKER_ROOTS)
  }

  /** The host's check of an auto-apply path. */
  predicate AssertSafeOverlayPath(path: string) {
    SafeUnder(path, HOST_ROOTS)
  }

  /** The directory a path leads to from the vault root, absent when it leaves the vault. */
  function Resolve(segments: seq<string>, at: seq<string>): Option<seq<string>>
    decreases |segments|
  {
    if segments == [] then Some(at)
    else if segments[0] == "" || segments[0] == "." then Resolve(segments[1..], at)
    else if segments[0] == ".." then (if at == [] then None else Resolve(segments[1..], at[..|at| - 1]))
    else Resolve(segments[1..], at + [segments[0]])
  }

  lemma {:induction false} SegmentsCons(s: string, rest: string)
    requires '/' !in s
    ensures Segments(s + "/" + rest) == [s] + Segments(rest)
  {
    var p := s + "/" + rest;
    if s == "" {
      assert p[1..] == rest;
    } else {
      SegmentsCons(s[1..], rest);
      assert p[1..] == s[1..] + "/" + rest;
      assert [s[0]] + s[1..] == s;
    }
  }

  /** Without parent segments a path resolves, and only ever deeper. */
  lemma {:induction false} ResolveDescends(segments: seq<string>, at: seq<string>)
    requires ".." !in segments
    ensures Resolve(segments, at).Some? && at <= Resolve(segments, at).value
    decreases |segments|
  {
    if segments != [] {
      assert segments[0] != "..";
      var next := if segments[0] == "" || segments[0] == "." then at else at + [segments[0]];
      ResolveDescends(segments[1..], next);
    }
  }

  lemma BrainflowSegments(p: string, dir: string)
    requires '/' !in dir && ".brainflow/" + dir + "/" <= p
    ensures exists rest :: Segments(p) == [".brainflow", dir] + Segments(rest)
  {
    var root := ".brainflow/" + dir + "/";
    var rest := p[|root|..];
    assert p == ".brainflow" + "/" + (dir + "/" + rest);
    SegmentsCons(".brainflow", dir + "/" + rest);
    SegmentsCons(dir, rest);
    assert [".brainflow"] + ([dir] + Segments(rest)) == [".brainflow", dir] + Segments(rest);
  }

  const MANAGED := ["artifacts", "workflows", "graphs", "templates", "runs"]

  ghost predicate Managed(at: seq<string>) {
    ["artifacts"] <= at || exists i :: 0 <= i < |MANAGED| && [".brainflow", MANAGED[i]] <= at
  }

  /** A path either check accepts resolves, inside the vault, to a place below one of the managed directories. */
  lemma SafePathStaysInOverlay(path: string)
    requires AssertSafeOverlayPath(path)
    ensures Resolve(Segments(Cleaned(path)), []).Some? && Managed(Resolve(Segments(Cleaned(path)), []).value)
  {
    hide Segments, Resolve, Managed;
    var p := Cleaned(path);
    var i :| 0 <= i < |HOST_ROOTS| && HOST_ROOTS[i] <= p;
    if i == 4 {
      ArtifactsPath(p);
    } else {
      var m := if i == 5 then 4 else i;
      assert HOST_ROOTS[i] == ".brainflow/" + MANAGED[m] + "/";
      BrainflowPath(p, m);
    }
  }

  lemma ArtifactsPath(p: string)
    requires ".." !in Segments(p) && "artifacts/" <= p
    ensures Resolve(Segments(p), []).Some? && Managed(Resolve(Segments(p), []).value)
  {
    hide Segments;
    var rest, segs := p[|"artifacts/"|..], Segments(p);
    assert p == "artifacts" + "/" + rest;
    SegmentsCons("artifacts", rest);
    assert segs[1..] == Segments(rest) && segs[0] == "artifacts";
    NoParentTail(segs, 1);
    ResolveDescends(segs[1..], ["artifacts"]);
    assert [] + ["artifacts"] == ["artifacts"];
  }

  lemma BrainflowPath(p: string, m: nat)
    requires ".." !in Segments(p) && m < |MANAGED| && ".brainflow/" + MANAGED[m] + "/" <= p
    ensures Resolve(Segments(p), []).Some? && Managed(Resolve(Segments(p), []).value)
  {
    hide Segments, Resolve;
    BrainflowSegments(p, MANAGED[m]);
    var rest :| Segments(p) == [".brainflow", MANAGED[m]] + Segments(rest);
    ResolveTwo(Segments(p), MANAGED[m]);
  }

  lemma NoParentTail(segs: seq<string>, k: nat)
    requires ".." !in segs && k <= |segs|
    ensures ".." !in segs[k..]
  {
  }

  lemma ResolveTwo(segs: seq<string>, dir: string)
    requires |segs| >= 2 && segs[0] == ".brainflow" && segs[1] == dir && dir !in {"", ".", ".."} && ".." !in segs
    ensures Resolve(segs, []).Some? && [".brainflow", dir] <= Resolve(segs, []).value
  {
    var tail := segs[1..];
    assert tail[0] == dir && tail[1..] == segs[2..];
    assert [] + [".brainflow"] == [".brainflow"] && [".brainflow"] + [dir] == [".brainflow", dir];
    assert Resolve(segs, []) == Resolve(tail, [".brainflow"]);
    NoParentTail(segs, 2);
    ResolveDescends(segs[2..], [".brainflow", dir]);
  }

  /** The two checks differ exactly on clean paths below the run directory. */
  lemma ChecksDifferOnRuns(path: string)
    ensures AssertSafeOverlayPath(path) <==>
      AssertPathSafeOverlay(path) || (".." !in Segments(Cleaned(path)) && ".brainflow/runs/" <= Cleaned(path))
  {
    var p := Cleaned(path);
    assert HOST_ROOTS[5] == ".brainflow/runs/";
    assert forall i :: 0 <= i < 5 ==> HOST_ROOTS[i] == WORKER_ROOTS[i];
    if Under(p, WORKER_ROOTS) {
      var i :| 0 <= i < |WORKER_ROOTS| && WORKER_ROOTS[i] <= p;
      assert HOST_ROOTS[i] <= p;
    }
    if Under(p, HOST_ROOTS) {
      var i :| 0 <= i < |HOST_ROOTS| && HOST_ROOTS[i] <= p;
      assert i < 5 ==> WORKER_ROOTS[i] <= p;
    }
  }

  // ---------------------------------------------------------------- the check, character by character

  /** Without its leading slashes and with forward slashes only. */
  ghost predicate IsCleaned(path: string, p: string, lead: nat) {
    && |path| == lead + |p|
    && (forall i :: 0 <= i < lead ==> path[i] == '/' || path[i] == '\\')
    && (forall i :: 0 <= i < |p| ==> p[i] == if path[lead + i] == '\\' then '/' else path[lead + i])
    && (p != "" ==> p[0] != '/')
  }

  /** The two dots stand between slashes or at an end. */
  ghost predicate ParentAt(p: string, i: int) {
    && 0 <= i <= |p| - 2 && p[i] == '.' && p[i + 1] == '.'
    && (i == 0 || p[i - 1] == '/') && (i + 2 == |p| || p[i + 2] == '/')
  }

  ghost predicate NoParent(p: string) {
    forall i :: !ParentAt(p, i)
  }

  lemma {:induction false} ForwardSlashesAt(path: string)
    ensures forall i :: 0 <= i < |path| ==> ForwardSlashes(path)[i] == if path[i] == '\\' then '/' else path[i]
  {
    if path != "" {
      ForwardSlashesAt(path[1..]);
    }
  }

  lemma {:induction false} StripLeadingIs(q: string) returns (lead: nat)
    ensures lead <= |q| && StripLeading(q) == q[lead..] && (forall i :: 0 <= i < lead ==> q[i] == '/') && (lead < |q| ==> q[lead] != '/')
  {
    if q != "" && q[0] == '/' {
      var rest := StripLeadingIs(q[1..]);
      lead := rest + 1;
    } else {
      lead := 0;
    }
  }

  lemma CleanedIs(path: string) returns (lead: nat)
    ensures IsCleaned(path, Cleaned(path), lead)
  {
    ForwardSlashesAt(path);
    lead := StripLeadingIs(ForwardSlashes(path));
  }

  lemma CleanedIsUnique(path: string, p: string, lead: nat, q: string, other: nat)
    requires IsCleaned(path, p, lead) && IsCleaned(path, q, other)
    ensures p == q
  {
    LeadIsLeast(path, p, lead, q, other);
    LeadIsLeast(path, q, other, p, lead);
  }

  lemma LeadIsLeast(path: string, p: string, lead: nat, q: string, other: nat)
    requires IsCleaned(path, p, lead) && IsCleaned(path, q, other)
    ensures other <= lead
  {
    if lead < |path| {
      assert p[0] != '/' && path[lead + 0] == path[lead];
    }
  }

  /** The segments of a text with a slash in it: what is before the first one, and the segments after it. */
  lemma {:induction false} FirstSegment(p: string) returns (k: nat)
    ensures k <= |p| && '/' !in p[..k]
    ensures k == |p| ==> Segments(p) == [p]
    ensures k < |p| ==> p[k] == '/' && Segments(p) == [p[..k]] + Segments(p[k + 1..])
  {
    if p == "" || p[0] == '/' {
      k := 0;
    } else {
      var rest := FirstSegment(p[1..]);
      k := rest + 1;
      assert p[..k] == [p[0]] + p[1..][..rest];
      if k < |p| {
        assert p[k + 1..] == p[1..][rest + 1..];
      } else {
        assert p == [p[0]] + p[1..];
      }
    }
  }

  lemma {:induction false} ParentInSegments(p: string)
    ensures ".." in Segments(p) <==> !NoParent(p)
    decreases |p|
  {
    hide Segments;
    var k := FirstSegment(p);
    if k == |p| {
      if p == ".." {
        assert ParentAt(p, 0);
      }
      NoSlashNoParent(p);
    } else {
      ParentInSegments(p[k + 1..]);
      ParentAfter(p, k);
      ParentFirst(p, k);
      ParentBySlash(p, k);
    }
  }

  lemma NoSlashNoParent(p: string)
    requires '/' !in p
    ensures p != ".." ==> NoParent(p)
  {
    assert forall i :: 0 <= i < |p| ==> p[i] in p;
    forall i | ParentAt(p, i)
      ensures p == ".."
    {
    }
  }

  lemma ParentAfter(p: string, k: nat)
    requires k < |p| && p[k] == '/'
    ensures forall i :: k < i ==> (ParentAt(p, i) <==> ParentAt(p[k + 1..], i - k - 1))
  {
  }

  lemma ParentFirst(p: string, k: nat)
    requires k < |p| && p[k] == '/' && '/' !in p[..k]
    ensures ParentAt(p, 0) <==> p[..k] == ".."
    ensures forall i :: 0 < i <= k ==> !ParentAt(p, i)
  {
    forall i | 0 <= i < k
      ensures p[i] == p[..k][i] && p[i] != '/'
    {
      assert p[..k][i] in p[..k];
    }
  }

  lemma ParentBySlash(p: string, k: nat)
    requires k < |p|
    requires forall i :: k < i ==> (ParentAt(p, i) <==> ParentAt(p[k + 1..], i - k - 1))
    requires forall i :: 0 < i <= k ==> !ParentAt(p, i)
    ensures NoParent(p) <==> !ParentAt(p, 0) && NoParent(p[k + 1..])
  {
    var tail := p[k + 1..];
    if !NoParent(tail) {
      var i :| ParentAt(tail, i);
      assert ParentAt(p, i + k + 1);
    }
    if !NoParent(p) && !ParentAt(p, 0) {
      var i :| ParentAt(p, i);
      assert ParentAt(tail, i - k - 1);
    }
  }

  /** The worker lets a path pass if and only if, without its leading slashes and read with forward slashes, it begins with one of the five
      directories and nowhere goes up. */
  lemma PathPassesIff(path: string, p: string, lead: nat)
    requires IsCleaned(path, p, lead)
    ensures AssertPathSafeOverlay(path) <==> NoParent(p) && InOverlay(p)
  {
    hide Cleaned, Segments, NoParent;
    var mine := CleanedIs(path);
    CleanedIsUnique(path, p, lead, Cleaned(path), mine);
    ParentInSegments(p);
    assert WORKER_ROOTS[0] == ".brainflow/artifacts/" && WORKER_ROOTS[1] == ".brainflow/workflows/" && WORKER_ROOTS[2] == ".brainflow/graphs/";
    assert WORKER_ROOTS[3] == ".brainflow/templates/" && WORKER_ROOTS[4] == "artifacts/";
  }

  /** The classes that apply without an approval; a node without a class counts among them. */
  predicate Automatic(cls: string) {
    cls == "" || cls == "read" || cls == "safe_overlay"
  }

  lemma AutomaticIff(cls: string)
    ensures MayAutoApply(ClassOrDefault(cls)) <==> Automatic(cls)
    ensures EvaluateNodeAction(cls, "").approvalRequired <==> !Automatic(cls)
  {
  }

  predicate InOverlay(p: string) {
    || ".brainflow/artifacts/" <= p || ".brainflow/workflows/" <= p || ".brainflow/graphs/" <= p || ".brainflow/templates/" <= p
    || "artifacts/" <= p
  }

  /** What a node of the class may write: below the overlay when it runs without an approval, anywhere otherwise. */
  ghost predicate MayWrite(cls: string, path: string) {
    Automatic(cls) ==> forall p, lead :: IsCleaned(path, p, lead) ==> NoParent(p) && InOverlay(p)
  }

  lemma MayWriteIff(cls: string, path: string)
    requires path != ""
    ensures MayWrite(cls, path) <==> (MayAutoApply(ClassOrDefault(cls)) ==> EvaluateNodeAction(cls, path).ok)
  {
    hide Cleaned, NoParent, IsCleaned, InOverlay, AssertPathSafeOverlay;
    AutomaticIff(cls);
    NoApprovalIffSafe(cls, path);
    var mine := CleanedIs(path);
    PathPassesIff(path, Cleaned(path), mine);
    forall p, lead | IsCleaned(path, p, lead)
      ensures AssertPathSafeOverlay(path) <==> NoParent(p) && InOverlay(p)
    {
      PathPassesIff(path, p, lead);
    }
  }

  // ---------------------------------------------------------------- one action

  datatype Decision = Decision(ok: bool, approvalRequired: bool)

  /** The decision on a node's action, and on the path it writes if it writes one. */
  function EvaluateNodeAction(permissionClass: string, writePath: string): Decision {
    var cls := Normalize(ClassOrDefault(permissionClass));
    if cls !in KNOWN_CLASSES then Decision(false, true)
    else if !MayAutoApply(cls) then Decision(false, true)
    else if writePath != "" && !AssertPathSafeOverlay(writePath) then Decision(false, true)
    else Decision(true, false)
  }

  /** An action runs without approval exactly when its class applies automatically and its path is a safe overlay path. */
  lemma NoApprovalIffSafe(permissionClass: string, writePath: string)
    ensures EvaluateNodeAction(permissionClass, writePath).ok <==> !EvaluateNodeAction(permissionClass, writePath).approvalRequired
    ensures EvaluateNodeAction(permissionClass, writePath).ok <==>
      MayAutoApply(ClassOrDefault(permissionClass)) && (writePath == "" || AssertPathSafeOverlay(writePath))
  {
  }
}
