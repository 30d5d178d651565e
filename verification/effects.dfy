/** Profile effects as behaviors emit them and as the two executors apply them to the
    relationship row. */
module Effects {
  import opened Text
  import opened Json
  import opened Profile

  /** A `state_patch` effect on the profile; `patch` is its `patch_data`, if present. */
  datatype ProfileEffect = ProfileEffect(key: string, value: Json, delete: bool, patch: Option<map<string, Json>>)

  function PathOf(key: string): (path: Path)
    ensures path != []
  {
    Split(key, '.')
  }

  /** `ctx.profile.set` and `ctx.profile.delete`. */
  function EmitSet(key: string, value: Json): ProfileEffect {
    ProfileEffect(key, value, false, Some(Nest(PathOf(key), value).fields))
  }

  function EmitDelete(key: string): ProfileEffect {
    ProfileEffect(key, Null, true, Some(Nest(PathOf(key), Null).fields))
  }

  /** The patch the post-turn executor uses: the supplied one, else one built from the key. */
  function PatchData(e: ProfileEffect): map<string, Json> {
    if e.patch.Some? then e.patch.value
    else if e.key == "" then map[]
    else Nest(PathOf(e.key), if e.delete then Null else e.value).fields
  }

  /** The same, case by case: what a given patch, a delete and a set stand for. */
  predicate IsPatchOf(e: ProfileEffect, patch: map<string, Json>) {
    && (e.patch != None ==> patch == e.patch.value)
    && (e.patch == None && e.key == "" ==> patch == map[])
    && (e.patch == None && e.key != "" ==>
          Obj(patch) == Nest(Split(e.key, '.'), if e.delete then Null else e.value))
  }

  lemma PatchDataIsPatch(e: ProfileEffect)
    ensures IsPatchOf(e, PatchData(e))
  {
  }

  /** `ctx.profile.get(path, default)`; the empty path asks for the whole profile. */
  method GetNestedValue(data: Json, path: string, default: Json) returns (v: Json)
    requires data.Obj?
    ensures path == "" ==> v == if data.fields == map[] then default else data
    ensures path != "" ==> v == match Get(data, PathOf(path)) case Some(x) => x case None => default
  {
    if path == "" {
      return if data.fields == map[] then default else data;
    }
    var parts := PathOf(path);
    v := data;
    for i := 0 to |parts|
      invariant Get(data, parts) == Get(v, parts[i..])
    {
      assert parts[i..][1..] == parts[i + 1..];
      if v.Obj? && parts[i] in v.fields {
        v := v.fields[parts[i]];
      } else {
        return default;
      }
    }
  }

  class RelationshipRow {
    var profile: Json
    var version: nat

    predicate Valid()
      reads this
    {
      profile.Obj?
    }

    constructor (p: Json)
      requires p.Obj?
      ensures Valid() && profile == p && version == 0
    {
      profile, version := p, 0;
    }

    /** `RelationshipRepository.patch_profile`: `profile || changes`, whatever its name says. */
    method PatchProfile(changes: Json)
      requires Valid() && changes.Obj?
      modifies this
      ensures Valid() && profile == Concat(old(profile), changes) && version == old(version) + 1
    {
      profile := Concat(profile, changes);
      version := version + 1;
    }

    /** The Modal executor's set: UPDATEs that create the parents, then one that sets the value,
        each for itself. An array stepped into by a non-index is an SQL error; a null value
        reaches `jsonb_set` as SQL NULL and the last UPDATE violates NOT NULL. */
    method ModalSet(key: string, value: Json) returns (ok: bool)
      requires Valid()
      modifies this
      ensures Valid() && (ok <==> value != Null && WritePath(old(profile), PathOf(key), value).Some?)
      ensures ok ==> Some(profile) == WritePath(old(profile), PathOf(key), value) && version == old(version) + 1
      ensures !ok && value != Null ==> profile == old(profile)
      ensures profile == ModalLeaves(old(profile), PathOf(key), value) && (!ok ==> version == old(version))
    {
      var parts := PathOf(key);
      for i := 1 to |parts|
        invariant Some(profile) == EnsureParents(old(profile), parts, i - 1) && profile.Obj?
        invariant version == old(version)
      {
        var parent := parts[..i];
        ParentsKeepTarget(old(profile), parts, i - 1);
        if Fetch(profile, parent).None? {
          var written := JsonbSet(profile, parent, Obj(map[]));
          if written.None? {
            StoppedLeaves(old(profile), parts, i, value);
            return false;
          }
          profile := written.value;
        }
        assert Some(profile) == EnsureParents(old(profile), parts, i);
        EnsureParentsObj(old(profile), parts, i);
      }
      LastLeaves(old(profile), parts, value, profile);
      if value == Null {
        return false;
      }
      var written := JsonbSet(profile, parts, value);
      if written.None? {
        return false;
      }
      profile := written.value;
      version := version + 1;
      ok := true;
    }

    /** The Modal executor's delete; an SQL error leaves the row alone. */
    method ModalDelete(key: string) returns (ok: bool)
      requires Valid()
      modifies this
      ensures Valid() && (ok <==> JsonbDelete(old(profile), PathOf(key)).Some?)
      ensures ok ==> Some(profile) == JsonbDelete(old(profile), PathOf(key)) && version == old(version) + 1
      ensures !ok ==> profile == old(profile) && version == old(version)
    {
      var parts := PathOf(key);
      if |parts| == 1 {
        SplitWholeKey(key);
        profile := Obj(profile.fields - {key});
      } else {
        var deleted := JsonbDelete(profile, parts);
        if deleted.None? {
          return false;
        }
        profile := deleted.value;
      }
      version := version + 1;
      ok := true;
    }
  }

  lemma SplitWholeKey(key: string)
    requires |PathOf(key)| == 1
    ensures PathOf(key) == [key]
  {
    JoinOfSplit(key, '.');
  }

  lemma {:induction false} EnsureParentsObj(j: Json, path: Path, n: nat)
    requires j.Obj? && n <= |path| && EnsureParents(j, path, n).Some?
    ensures EnsureParents(j, path, n).value.Obj?
  {
    if n > 0 {
      EnsureParentsObj(j, path, n - 1);
    }
  }

  /** A parent that raises ends the sequence with nothing changed. */
  lemma StoppedLeaves(j: Json, path: Path, i: nat, v: Json)
    requires 1 <= i < |path| && EnsureParents(j, path, i).None? && EnsureParents(j, path, i - 1).Some?
    ensures EnsureParents(j, path, i - 1).value == j
    ensures WritePath(j, path, v).None? && ModalLeaves(j, path, v) == j
  {
    var p := EnsureParents(j, path, i - 1).value;
    EnsurePrefix(j, path, i, i - 1);
    ErrorsComeFirst(j, path[..i], Obj(map[]), p);
    EnsureStopped(j, path, i, |path| - 1);
    IteratedSetIsWrite(j, path, v);
  }

  /** What the last UPDATE does to the document with all parents. */
  lemma LastLeaves(j: Json, path: Path, v: Json, p: Json)
    requires path != [] && EnsureParents(j, path, |path| - 1) == Some(p)
    ensures WritePath(j, path, v) == JsonbSet(p, path, v) && (JsonbSet(p, path, v).None? ==> p == j)
    ensures ModalLeaves(j, path, v) == if v != Null && JsonbSet(p, path, v).Some? then JsonbSet(p, path, v).value else p
  {
    IteratedSetIsWrite(j, path, v);
    var written := JsonbSet(p, path, v);
    assert IteratedSet(j, path, v) == written;
    if written.None? {
      ErrorsComeFirst(j, path, v, p);
    }
  }

  /** After an error no statement is left to run. */
  lemma {:induction false} EnsureStopped(j: Json, path: Path, n: nat, m: nat)
    requires n <= m <= |path| && EnsureParents(j, path, n).None?
    ensures EnsureParents(j, path, m).None?
    decreases m
  {
    if n < m {
      EnsureStopped(j, path, n, m - 1);
    }
  }

  // ---------------------------------------------------------------- post-turn execution

  datatype Status = Skipped | Failed | NotFound | Success(version: nat)

  /** The profile after the post-turn executor has applied a list of effects. */
  function RunProfile(j: Json, effects: seq<ProfileEffect>): (r: Json)
    requires j.Obj?
    ensures r.Obj?
  {
    if effects == [] then j
    else Concat(RunProfile(j, effects[..|effects| - 1]), Obj(PatchData(effects[|effects| - 1])))
  }

  /** How many effects of the list carry a non-empty patch. */
  function Applied(effects: seq<ProfileEffect>): nat {
    if effects == [] then 0
    else Applied(effects[..|effects| - 1]) + if PatchData(effects[|effects| - 1]) == map[] then 0 else 1
  }

  class PostTurnExecutor {
    const hasRelationship: bool
    const sessionIsolated: bool
    const row: RelationshipRow?  // null when the UPDATE matches no row
    var results: seq<Status>

    constructor (hasRelationship: bool, sessionIsolated: bool, row: RelationshipRow?)
      ensures this.hasRelationship == hasRelationship && this.sessionIsolated == sessionIsolated
      ensures this.row == row && results == [] && (row != null && row.Valid() ==> Valid()) && (row == null ==> Valid())
    {
      this.hasRelationship, this.sessionIsolated, this.row := hasRelationship, sessionIsolated, row;
      results := [];
    }

    ghost predicate Valid()
      reads this, row
    {
      row != null ==> row.Valid()
    }

    /** Writes happen only for a known relationship outside an isolated session. */
    predicate Writes() {
      hasRelationship && !sessionIsolated && row != null
    }

    /** Which outcome an effect must report. */
    predicate Fits(status: Status, e: ProfileEffect) {
      && (status.Skipped? <==> !hasRelationship || sessionIsolated)
      && (status.Success? <==> Writes() && PatchData(e) != map[])
      && (status.NotFound? ==> row == null)
    }

    method ApplyStatePatch(e: ProfileEffect) returns (status: Status)
      requires Valid()
      modifies row
      ensures Valid()
      ensures row != null ==>
                && row.profile == (if Writes() then RunProfile(old(row.profile), [e]) else old(row.profile))
                && row.version == old(row.version) + (if Writes() then Applied([e]) else 0)
      ensures row != null && Writes() ==>
                exists patch :: IsPatchOf(e, patch) && row.profile.fields == old(row.profile).fields + patch
      ensures status == if !hasRelationship || sessionIsolated then Skipped
                        else if PatchData(e) == map[] then Failed
                        else if row == null then NotFound
                        else Success(row.version)
    {
      assert [e][..0] == [];
      PatchDataIsPatch(e);
      if !hasRelationship {
        return Skipped;
      }
      if sessionIsolated {
        return Skipped;
      }
      var patchData := if e.patch.Some? then e.patch.value
                       else if e.delete then (if e.key != "" then Nest(PathOf(e.key), Null).fields else map[])
                       else (if e.key != "" then Nest(PathOf(e.key), e.value).fields else map[]);
      if patchData == map[] {
        assert row != null ==> row.profile.fields + map[] == row.profile.fields;
        return Failed;
      }
      if row == null {
        return NotFound;
      }
      row.PatchProfile(Obj(patchData));
      status := Success(row.version);
    }

    /** Effects are applied in order, one result each, and a failed one does not stop the rest. */
    method Execute(effects: seq<ProfileEffect>) returns (out: seq<Status>)
      requires Valid()
      modifies this, row
      ensures Valid() && out == results && |results| == |old(results)| + |effects|
      ensures results[..|old(results)|] == old(results)
      ensures row != null ==>
                && row.profile == (if Writes() then RunProfile(old(row.profile), effects) else old(row.profile))
                && row.version == old(row.version) + (if Writes() then Applied(effects) else 0)
      ensures forall i :: |old(results)| <= i < |results| ==> Fits(results[i], effects[i - |old(results)|])
    {
      for n := 0 to |effects|
        invariant Valid() && |results| == |old(results)| + n && results[..|old(results)|] == old(results)
        invariant row != null ==>
                    && row.profile == (if Writes() then RunProfile(old(row.profile), effects[..n])
                                       else old(row.profile))
                    && row.version == old(row.version) + (if Writes() then Applied(effects[..n]) else 0)
        invariant forall i :: |old(results)| <= i < |results| ==> Fits(results[i], effects[i - |old(results)|])
      {
        RunSnoc(if row != null then old(row.profile) else Obj(map[]), effects, n);
        var status := ApplyStatePatch(effects[n]);
        results := results + [status];
      }
      assert effects[..|effects|] == effects;
      out := results;
    }
  }

  lemma RunSnoc(j: Json, effects: seq<ProfileEffect>, n: nat)
    requires j.Obj? && n < |effects|
    ensures RunProfile(j, effects[..n + 1]) == RunProfile(RunProfile(j, effects[..n]), [effects[n]])
    ensures Applied(effects[..n + 1]) == Applied(effects[..n]) + Applied([effects[n]])
  {
    assert effects[..n + 1][..n] == effects[..n];
    assert [effects[n]][..0] == [];
  }

  /** The patch value the last effect touching `k` carries. */
  function LastPatch(effects: seq<ProfileEffect>, k: string): Option<Json> {
    if effects == [] then None
    else
      var patch := PatchData(effects[|effects| - 1]);
      if k in patch then Some(patch[k]) else LastPatch(effects[..|effects| - 1], k)
  }

  /** Over any run of effects, each top-level key ends up as the last effect touching it left it:
      everything earlier effects of the run put under the same key is gone. */
  lemma {:induction false} LastWriterOwnsTopKey(j: Json, effects: seq<ProfileEffect>, k: string)
    requires j.Obj?
    ensures var r, last := RunProfile(j, effects).fields, LastPatch(effects, k);
            && (k in r <==> k in j.fields || last.Some?)
            && (k in r ==> r[k] == if last.Some? then last.value else j.fields[k])
  {
    if effects != [] {
      LastWriterOwnsTopKey(j, effects[..|effects| - 1], k);
    }
  }

  /** Setting `k.p` after any run leaves nothing but that path under `k`. */
  lemma SetReplacesTopKey(j: Json, effects: seq<ProfileEffect>, key: string, value: Json)
    requires j.Obj?
    ensures var r := RunProfile(j, effects + [EmitSet(key, value)]);
            var path := PathOf(key);
            Field(r, path[0]) == Nest(path[1..], value) && Get(r, path) == Some(value)
  {
    var e := EmitSet(key, value);
    var path := PathOf(key);
    assert (effects + [e])[..|effects|] == effects;
    NestStep(RunProfile(j, effects), path, value);
    assert Obj(PatchData(e)) == Nest(path, value);
    GetNest(path[1..], value);
  }

  /** After any run, a delete effect leaves a null that later reads find instead of their
      default. */
  lemma DeleteLeavesNull(j: Json, effects: seq<ProfileEffect>, key: string)
    requires j.Obj?
    ensures Get(RunProfile(j, effects + [EmitDelete(key)]), PathOf(key)) == Some(Null)
  {
    var e := EmitDelete(key);
    assert (effects + [e])[..|effects|] == effects;
    assert Obj(PatchData(e)) == Nest(PathOf(key), Null);
    PostTurnDeleteStoresNull(RunProfile(j, effects), PathOf(key));
  }
}
