/**
 The directory holding the overlay: one installed file and the staged temporaries next to it.
 Mirrors AtomicOverlayStore in deployment/overlay.py. File operations may raise; a raise after
 the rename leaves the new file in place.
 */
module OverlayStore {
  import opened Basics
  import opened Overlay

  class AtomicOverlayStore {
    const target: Target
    var installed: Option<Content>
    var staged: map<nat, Content>

    constructor (target: Target, installed: Option<Content>)
      ensures this.target == target && this.installed == installed && staged == map[]
    {
      this.target, this.installed, this.staged := target, installed, map[];
    }

    /** Validates, writes a fresh temporary, and remembers it only when the write completed. */
    method Stage(artifact: Artifact) returns (path: Option<nat>)
      modifies this`staged
      ensures path.Some? ==> path.value !in old(staged) && staged == old(staged)[path.value := artifact.content]
      ensures path.Some? ==> exists kind :: Acceptable(target, kind, artifact.content)
      ensures path.None? ==> staged == old(staged)
    {
      var valid := ValidateOverlayContent(target, artifact.content, artifact.sha256);
      var fault: bool := *;
      if valid.None? || fault { return None; }
      var next := FreshPath(staged.Keys);
      staged := staged[next := artifact.content];
      path := Some(next);
    }

    /** On success the stable file holds the artifact; on failure it holds that or what it held before. */
    method Install(path: nat, artifact: Artifact) returns (ok: bool)
      modifies this`installed, this`staged
      ensures ok ==> installed == Some(artifact.content)
      ensures installed == old(installed) || installed == Some(artifact.content)
      ensures staged == old(staged) || staged == old(staged) - {path}
      ensures path !in old(staged) ==> !ok && installed == old(installed)
    {
      if path !in staged || staged[path] != artifact.content { return false; }
      var valid := ValidateOverlayContent(target, artifact.content, artifact.sha256);
      var fault: bool := *;
      if valid.None? || fault { return false; }
      installed := Some(staged[path]);
      staged := staged - {path};
      fault := *;
      if fault { return false; }
      ok := VerifyInstalled(artifact);
    }

    /** Reads back; a pass means the stable file holds exactly this artifact. */
    method VerifyInstalled(artifact: Artifact) returns (ok: bool)
      ensures ok ==> installed == Some(artifact.content) && Acceptable(target, artifact.kind, artifact.content)
    {
      var fault: bool := *;
      if fault || installed != Some(artifact.content) { return false; }
      var valid := ValidateOverlayContent(target, artifact.content, artifact.sha256);
      ok := valid.Some? && valid.value.kind == artifact.kind;
    }

    method Restore(content: Content, sha256: Digest) returns (ok: bool)
      modifies this`installed, this`staged
      ensures ok ==> installed == Some(content)
      ensures installed == old(installed) || installed == Some(content)
    {
      var artifact := ValidateOverlayContent(target, content, sha256);
      if artifact.None? { return false; }
      var path := Stage(artifact.value);
      if path.None? { return false; }
      ok := Install(path.value, artifact.value);
    }

    /** Removes a staged file; an unlink that raises leaves it remembered. */
    method Discard(path: nat) returns (ok: bool)
      modifies this`staged
      ensures staged == if ok then old(staged) - {path} else old(staged)
      ensures path !in old(staged) ==> !ok
    {
      var fault: bool := *;
      if path !in staged || fault { return false; }
      staged := staged - {path};
      ok := true;
    }
  }

  method FreshPath(used: set<nat>) returns (path: nat)
    ensures path !in used
  {
    path := 0;
    var below: set<nat> := {};
    while path in used
      invariant below <= used && path !in below
      invariant forall n :: n in below <==> 0 <= n < path
      decreases used - below
    {
      below := below + {path};
      path := path + 1;
    }
  }
}
