/** JSON documents and the JSON merge patch of RFC 7396, as the status writers of this repository
    use it: a patch is computed as the difference of two marshalled copies of one object and is
    applied by the API server to whatever it stores at that moment. */
module Json {
  datatype Option<+T> = None | Some(value: T) {
    function GetOr(default: T): (r: T) { if Some? then value else default }
  }

  datatype Json =
    | Null
    | Bool(b: bool)
    | Num(n: int)
    | Str(s: string)
    | Arr(items: seq<Json>)
    | Obj(members: map<string, Json>)

  /** No null anywhere: what marshalling a Kubernetes object with omitted empty fields yields. */
  ghost predicate NullFree(j: Json)
  {
    match j
    case Null => false
    case Arr(items) => forall i :: 0 <= i < |items| ==> NullFree(items[i])
    case Obj(members) => forall k :: k in members ==> NullFree(members[k])
    case _ => true
  }

  function Member(j: Json, k: string): (r: Option<Json>)
  {
    if j.Obj? && k in j.members then Some(j.members[k]) else None
  }

  /** CreateMergePatch on two documents: only members that differ appear, a removed member as null,
      two differing objects as their own difference. */
  function Diff(a: Json, b: Json): (patch: Json)
    requires a.Obj? && b.Obj?
    decreases a
  {
    Obj(map k | k in a.members.Keys + b.members.Keys && Member(a, k) != Member(b, k) ::
          if k !in b.members then Null
          else if k in a.members && a.members[k].Obj? && b.members[k].Obj? then Diff(a.members[k], b.members[k])
          else b.members[k])
  }

  /** MergePatch of RFC 7396, section 2. */
  function Apply(patch: Json, target: Json): (r: Json)
    decreases patch
  {
    if !patch.Obj? then patch else
      var base := if target.Obj? then target.members else map[];
      Obj(map k | k in base.Keys + patch.members.Keys && !(k in patch.members && patch.members[k].Null?) ::
            if k in patch.members then Apply(patch.members[k], if k in base then base[k] else Null) else base[k])
  }

  // ---------------------------------------------------------------------------------------------
  // Laws of the pair
  // ---------------------------------------------------------------------------------------------

  /** A null-free value put where the target holds no object arrives unchanged. */
  lemma {:induction false} ApplyToNonObject(value: Json, target: Json)
    requires NullFree(value) && !target.Obj?
    ensures Apply(value, target) == value
    decreases value
  {
    if value.Obj? {
      forall k | k in value.members ensures Apply(value.members[k], Null) == value.members[k] {
        ApplyToNonObject(value.members[k], Null);
      }
      assert Apply(value, target).members == value.members;
    }
  }

  /** What one member becomes when a difference is applied to an unrelated target. */
  lemma {:induction false} ApplyDiffMember(a: Json, b: Json, target: Json, k: string)
    requires a.Obj? && b.Obj? && NullFree(b)
    ensures Member(a, k) == Member(b, k) ==> Member(Apply(Diff(a, b), target), k) == Member(target, k)
    ensures Member(a, k) != Member(b, k) && (k in b.members ==> !b.members[k].Obj?) ==>
              Member(Apply(Diff(a, b), target), k) == Member(b, k)
    ensures k in a.members && k in b.members && a.members[k].Obj? && b.members[k].Obj?
            && a.members[k] != b.members[k] ==>
              Member(Apply(Diff(a, b), target), k)
              == Some(Apply(Diff(a.members[k], b.members[k]), Member(target, k).GetOr(Null)))
    ensures k in b.members && b.members[k].Obj? && !(k in a.members && a.members[k].Obj?) ==>
              Member(Apply(Diff(a, b), target), k) == Some(Apply(b.members[k], Member(target, k).GetOr(Null)))
  {
    var d := Diff(a, b);
    if k in b.members && !b.members[k].Obj? && Member(a, k) != Member(b, k) {
      assert d.members[k] == b.members[k];
      assert NullFree(b.members[k]);
    }
  }

  /** The patch computed from two copies turns the first copy into the second. */
  lemma {:induction false} DiffThenApply(a: Json, b: Json)
    requires a.Obj? && b.Obj? && NullFree(b)
    ensures Apply(Diff(a, b), a) == b
    decreases a
  {
    var r := Apply(Diff(a, b), a);
    forall k ensures Member(r, k) == Member(b, k) {
      ApplyDiffMember(a, b, a, k);
      if k in b.members && b.members[k].Obj? && Member(a, k) != Member(b, k) {
        if k in a.members && a.members[k].Obj? {
          DiffThenApply(a.members[k], b.members[k]);
        } else {
          ApplyToNonObject(b.members[k], Member(a, k).GetOr(Null));
        }
      }
    }
    SameMembers(r, b);
  }

  lemma SameMembers(a: Json, b: Json)
    requires a.Obj? && b.Obj?
    requires forall k :: Member(a, k) == Member(b, k)
    ensures a == b
  {
    forall k ensures k in a.members <==> k in b.members {
      assert Member(a, k) == Member(b, k);
    }
    forall k | k in a.members ensures a.members[k] == b.members[k] {
      assert Member(a, k) == Member(b, k);
    }
    assert a.members == b.members;
  }

  /** The value at a path of member names. */
  function At(j: Json, path: seq<string>): (r: Option<Json>)
    decreases |path|
  {
    if path == [] then Some(j)
    else if j.Obj? && path[0] in j.members then At(j.members[path[0]], path[1..])
    else None
  }

  /** `path` lies in a part of the document on which the two copies agree: the objects above it are
      objects in both, and at its end both hold the same value or both hold nothing. */
  ghost predicate Agree(a: Json, b: Json, path: seq<string>)
    decreases |path|
  {
    if path == [] then a == b
    else
      a.Obj? && b.Obj? &&
      ((path[0] !in a.members && path[0] !in b.members)
       || (path[0] in a.members && path[0] in b.members && Agree(a.members[path[0]], b.members[path[0]], path[1..])))
  }

  /** No lost update: whatever the target is, the patch leaves every agreed part of it as it is. */
  lemma {:induction false} PatchKeepsAgreedParts(a: Json, b: Json, target: Json, path: seq<string>)
    requires a.Obj? && b.Obj? && NullFree(b)
    requires path != [] && Agree(a, b, path)
    ensures At(Apply(Diff(a, b), target), path) == At(target, path)
    decreases |path|
  {
    var k, rest := path[0], path[1..];
    ApplyDiffMember(a, b, target, k);
    var r := Apply(Diff(a, b), target);
    if Member(a, k) == Member(b, k) {
      assert Member(r, k) == Member(target, k);
    } else {
      var below := Member(target, k).GetOr(Null);
      PatchKeepsAgreedParts(a.members[k], b.members[k], below, rest);
      assert Member(r, k) == Some(Apply(Diff(a.members[k], b.members[k]), below));
    }
  }

  /** Patching keeps stored documents null-free, so the round trip stays available to the next writer. */
  lemma {:induction false} ApplyKeepsNullFree(patch: Json, target: Json)
    requires NullFree(patch) && (target.Null? || NullFree(target))
    ensures NullFree(Apply(patch, target))
    decreases patch
  {
    if patch.Obj? {
      var base := if target.Obj? then target.members else map[];
      forall k | k in patch.members ensures NullFree(Apply(patch.members[k], if k in base then base[k] else Null)) {
        ApplyKeepsNullFree(patch.members[k], if k in base then base[k] else Null);
      }
    }
  }

  lemma {:induction false} PatchedStaysNullFree(a: Json, b: Json, target: Json)
    requires a.Obj? && b.Obj? && NullFree(b) && (target.Null? || NullFree(target))
    ensures NullFree(Apply(Diff(a, b), target))
    decreases a
  {
    var base := if target.Obj? then target.members else map[];
    var d := Diff(a, b);
    forall k | k in d.members && !d.members[k].Null?
      ensures NullFree(Apply(d.members[k], if k in base then base[k] else Null))
    {
      var t := if k in base then base[k] else Null;
      if k in a.members && a.members[k].Obj? && b.members[k].Obj? {
        PatchedStaysNullFree(a.members[k], b.members[k], t);
      } else {
        ApplyKeepsNullFree(b.members[k], t);
      }
    }
  }

  /** Where only scalar members differ, applying a difference picks member by member. */
  lemma ApplyDiffIsMemberwise(a: Json, b: Json, target: Json, r: Json)
    requires a.Obj? && b.Obj? && target.Obj? && r.Obj? && NullFree(b)
    requires forall k :: Member(a, k) != Member(b, k) && k in b.members ==> !b.members[k].Obj?
    requires forall k :: Member(r, k) == (if Member(a, k) == Member(b, k) then Member(target, k) else Member(b, k))
    ensures Apply(Diff(a, b), target) == r
  {
    forall k ensures Member(Apply(Diff(a, b), target), k) == Member(r, k) {
      ApplyDiffMember(a, b, target, k);
    }
    SameMembers(Apply(Diff(a, b), target), r);
  }

  /** An object member of both copies: the stored member takes the difference of the two. */
  lemma ApplyDiffInside(a: Json, b: Json, target: Json, k: string)
    requires a.Obj? && b.Obj? && target.Obj? && NullFree(b)
    requires k in a.members && k in b.members && k in target.members && a.members[k].Obj? && b.members[k].Obj?
    requires target.members[k].Obj?
    ensures Member(Apply(Diff(a, b), target), k) == Some(Apply(Diff(a.members[k], b.members[k]), target.members[k]))
  {
    ApplyDiffMember(a, b, target, k);
    if a.members[k] == b.members[k] {
      ApplyEmptyDiff(a.members[k], target.members[k]);
    }
  }

  lemma ApplyEmptyDiff(a: Json, target: Json)
    requires a.Obj? && target.Obj?
    ensures Apply(Diff(a, a), target) == target
  {
    assert Diff(a, a).members == map[];
    assert Apply(Diff(a, a), target).members == target.members;
  }
}
