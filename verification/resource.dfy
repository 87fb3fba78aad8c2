/** The resource ledger (contracts/cw1-whitelist/src/resource.rs): admin-gated
    batch operations over RESOURCE_MAP, and the query that skips missing ids.

    Each batch operation is specified by a fold over its id list (UseEach,
    ReleaseEach, UpdateEach, AddEach, DeleteEach) that stops at the first
    failing id, like the `?` in the source's loops; the lemmas after each fold
    say in closed form when it succeeds and what map it produces. */
module ResourceLedger {
  import opened ContractErrors
  import opened ResourceTypes

  type Store = map<string, Resource>

  /** Every entry is stored under its own id (`add_resources` saves each
      resource under `get_id()`, and nothing changes an id afterwards). */
  ghost predicate KeyedById(m: Store)
  {
    forall k :: k in m ==> m[k].id == k
  }

  ghost predicate Distinct(ids: seq<string>)
  {
    forall i, j :: 0 <= i < j < |ids| ==> ids[i] != ids[j]
  }

  /** Drops the updated map of a successful batch, keeping only the outcome. */
  function Unit(r: Result<Store>): Result<()>
  {
    if r.Ok? then Ok(()) else Err(r.error)
  }

  // ---------------------------------------------------------------- query

  /** `query_resources`: the stored resources of the ids present, in request order. */
  function Lookup(m: Store, ids: seq<string>): (rs: seq<Resource>)
    ensures |rs| <= |ids|
    decreases |ids|
  {
    if ids == [] then []
    else
      var front := Lookup(m, ids[..|ids| - 1]);
      var last := ids[|ids| - 1];
      if last in m then front + [m[last]] else front
  }

  /** Looking up a concatenation looks up each part in turn: the result keeps request order. */
  lemma {:induction false} LookupAppend(m: Store, a: seq<string>, b: seq<string>)
    ensures Lookup(m, a + b) == Lookup(m, a) + Lookup(m, b)
    decreases |b|
  {
    if b == [] {
      assert a + b == a;
    } else {
      var b' := b[..|b| - 1];
      assert (a + b)[..|a + b| - 1] == a + b';
      assert (a + b)[|a + b| - 1] == b[|b| - 1];
      LookupAppend(m, a, b');
    }
  }

  /** A single id yields its resource, or nothing when it is absent. */
  lemma LookupOne(m: Store, id: string)
    ensures Lookup(m, [id]) == if id in m then [m[id]] else []
  {
    assert [id][..0] == [];
  }

  /** Exactly the resources of the present requested ids appear in the answer. */
  lemma {:induction false} LookupMembership(m: Store, ids: seq<string>, x: Resource)
    ensures x in Lookup(m, ids) <==> exists i :: 0 <= i < |ids| && ids[i] in m && m[ids[i]] == x
    decreases |ids|
  {
    if ids != [] {
      var p := ids[..|ids| - 1];
      LookupMembership(m, p, x);
      if x in Lookup(m, ids) && x !in Lookup(m, p) {
        assert ids[|ids| - 1] in m && m[ids[|ids| - 1]] == x;
      }
      if exists i :: 0 <= i < |ids| && ids[i] in m && m[ids[i]] == x {
        var i :| 0 <= i < |ids| && ids[i] in m && m[ids[i]] == x;
        if i < |ids| - 1 {
          assert p[i] == ids[i];
        }
      }
    }
  }

  /** When every id is present nothing is skipped: the answer lines up with the request. */
  lemma {:induction false} LookupAllPresent(m: Store, ids: seq<string>)
    requires forall i :: 0 <= i < |ids| ==> ids[i] in m
    ensures |Lookup(m, ids)| == |ids|
    ensures forall i :: 0 <= i < |ids| ==> Lookup(m, ids)[i] == m[ids[i]]
    decreases |ids|
  {
    if ids != [] {
      var p := ids[..|ids| - 1];
      LookupAllPresent(m, p);
    }
  }

  // ------------------------------------------------- per-entry update folds

  /** `RESOURCE_MAP.update(id, ..)` with a closure that fails with NotFound on
      a missing entry and otherwise applies `f`. */
  function Apply(m: Store, id: string, f: Resource -> Result<Resource>): (res: Result<Store>)
    ensures id !in m ==> res == Err(NotFound)
    ensures id in m ==> (res.Ok? <==> f(m[id]).Ok?)
    ensures id in m && f(m[id]).Err? ==> res.error == f(m[id]).error
    ensures res.Ok? ==> res.value.Keys == m.Keys && res.value[id] == f(m[id]).value
    ensures res.Ok? ==> forall k :: k in m && k != id ==> res.value[k] == m[k]
  {
    if id !in m then Err(NotFound)
    else
      var r :- f(m[id]);
      Ok(m[id := r])
  }

  /** Apply `f` to each listed id in order, stopping at the first failure. */
  function ApplyEach(m: Store, ids: seq<string>, f: Resource -> Result<Resource>): (res: Result<Store>)
    ensures res.Ok? ==> res.value.Keys == m.Keys
    decreases |ids|
  {
    if ids == [] then Ok(m)
    else
      var m' :- ApplyEach(m, ids[..|ids| - 1], f);
      Apply(m', ids[|ids| - 1], f)
  }

  /** An operation that never succeeds twice in a row on the same value. */
  ghost predicate OneShot(f: Resource -> Result<Resource>)
  {
    forall x :: f(x).Ok? ==> f(f(x).value).Err?
  }

  /** A batch leaves the entries whose ids it does not list as they were. */
  lemma {:induction false} ApplyEachKeepsUnlisted(m: Store, ids: seq<string>, f: Resource -> Result<Resource>)
    ensures ApplyEach(m, ids, f).Ok? ==> forall k :: k in m && k !in ids ==> ApplyEach(m, ids, f).value[k] == m[k]
    decreases |ids|
  {
    if ids != [] {
      var n := |ids| - 1;
      assert ids == ids[..n] + [ids[n]];
      ApplyEachKeepsUnlisted(m, ids[..n], f);
    }
  }

  /** Every listed id is present and accepted by `f`. */
  ghost predicate Accepted(m: Store, ids: seq<string>, f: Resource -> Result<Resource>)
  {
    forall i :: 0 <= i < |ids| ==> ids[i] in m && f(m[ids[i]]).Ok?
  }

  /** `m'` holds `f` applied once to each listed entry of `m`. */
  ghost predicate AppliedOnce(m: Store, m': Store, ids: seq<string>, f: Resource -> Result<Resource>)
    requires Accepted(m, ids, f)
  {
    forall i :: 0 <= i < |ids| ==> ids[i] in m' && m'[ids[i]] == f(m[ids[i]]).value
  }

  /** A repeated last id: its entry was already changed once, so `f` now fails. */
  lemma ApplyEachStepRepeated(m: Store, ids: seq<string>, f: Resource -> Result<Resource>)
    requires OneShot(f) && ids != [] && ids[|ids| - 1] in ids[..|ids| - 1]
    requires var p := ids[..|ids| - 1];
      && ApplyEach(m, p, f).Ok? && Accepted(m, p, f) && AppliedOnce(m, ApplyEach(m, p, f).value, p, f)
    ensures ApplyEach(m, ids, f).Err? && !Distinct(ids)
  {
    var n := |ids| - 1;
    var p, x := ids[..n], ids[n];
    var j :| 0 <= j < n && p[j] == x;
    assert ApplyEach(m, p, f).value[x] == f(m[x]).value;
    assert ids[j] == ids[n];
  }

  /** A new last id that is absent or refused makes the batch fail. */
  lemma ApplyEachStepRejected(m: Store, ids: seq<string>, f: Resource -> Result<Resource>)
    requires ids != [] && ids[|ids| - 1] !in ids[..|ids| - 1]
    requires ApplyEach(m, ids[..|ids| - 1], f).Ok?
    requires ids[|ids| - 1] !in m || f(m[ids[|ids| - 1]]).Err?
    ensures ApplyEach(m, ids, f).Err? && !Accepted(m, ids, f)
  {
    var n := |ids| - 1;
    var p, x := ids[..n], ids[n];
    ApplyEachKeepsUnlisted(m, p, f);
    if x in m {
      assert ApplyEach(m, p, f).value[x] == m[x];
    }
  }

  /** A list stays duplicate-free when its new last id is not already in it. */
  lemma DistinctSnoc(ids: seq<string>)
    requires ids != [] && ids[|ids| - 1] !in ids[..|ids| - 1] && Distinct(ids[..|ids| - 1])
    ensures Distinct(ids)
  {
    var n := |ids| - 1;
    var p := ids[..n];
    forall i, j | 0 <= i < j < |ids|
      ensures ids[i] != ids[j]
    {
      assert ids[i] == p[i];
      if j < n {
        assert ids[j] == p[j];
      }
    }
  }

  /** Applying `f` to one more new, accepted entry extends AppliedOnce by that id. */
  lemma AppliedOnceSnoc(m: Store, front: Store, ids: seq<string>, f: Resource -> Result<Resource>)
    requires ids != [] && ids[|ids| - 1] in m && f(m[ids[|ids| - 1]]).Ok?
    requires Accepted(m, ids[..|ids| - 1], f) && AppliedOnce(m, front, ids[..|ids| - 1], f)
    ensures Accepted(m, ids, f)
    ensures AppliedOnce(m, front[ids[|ids| - 1] := f(m[ids[|ids| - 1]]).value], ids, f)
  {
    var n := |ids| - 1;
    var p, x := ids[..n], ids[n];
    var m' := front[x := f(m[x]).value];
    forall i | 0 <= i < |ids|
      ensures ids[i] in m && f(m[ids[i]]).Ok?
    {
      if i < n {
        assert ids[i] == p[i];
      }
    }
    forall i | 0 <= i < |ids|
      ensures ids[i] in m' && m'[ids[i]] == f(m[ids[i]]).value
    {
      if i < n {
        assert ids[i] == p[i];
      }
    }
  }

  /** A new last id that is present and accepted extends a successful batch. */
  lemma ApplyEachStepAccepted(m: Store, ids: seq<string>, f: Resource -> Result<Resource>)
    requires ids != [] && ids[|ids| - 1] !in ids[..|ids| - 1]
    requires ids[|ids| - 1] in m && f(m[ids[|ids| - 1]]).Ok?
    requires var p := ids[..|ids| - 1];
      && ApplyEach(m, p, f).Ok? && Distinct(p) && Accepted(m, p, f) && AppliedOnce(m, ApplyEach(m, p, f).value, p, f)
    ensures ApplyEach(m, ids, f).Ok? && Distinct(ids) && Accepted(m, ids, f)
    ensures AppliedOnce(m, ApplyEach(m, ids, f).value, ids, f)
  {
    var n := |ids| - 1;
    var p, x := ids[..n], ids[n];
    ApplyEachKeepsUnlisted(m, p, f);
    var front := ApplyEach(m, p, f).value;
    assert front[x] == m[x];
    assert ApplyEach(m, ids, f) == Ok(front[x := f(m[x]).value]);
    DistinctSnoc(ids);
    AppliedOnceSnoc(m, front, ids, f);
  }

  /** One step of the induction behind ApplyEachSpec: from the prefix to the whole list. */
  lemma ApplyEachStep(m: Store, ids: seq<string>, f: Resource -> Result<Resource>)
    requires OneShot(f) && ids != []
    requires var p := ids[..|ids| - 1];
      && (ApplyEach(m, p, f).Ok? <==> Distinct(p) && Accepted(m, p, f))
      && (ApplyEach(m, p, f).Ok? ==> AppliedOnce(m, ApplyEach(m, p, f).value, p, f))
    ensures ApplyEach(m, ids, f).Ok? <==> Distinct(ids) && Accepted(m, ids, f)
    ensures ApplyEach(m, ids, f).Ok? ==> AppliedOnce(m, ApplyEach(m, ids, f).value, ids, f)
  {
    var n := |ids| - 1;
    var p, x := ids[..n], ids[n];
    if ApplyEach(m, p, f).Err? {
      if Distinct(ids) && Accepted(m, ids, f) {
        assert forall i :: 0 <= i < n ==> ids[i] == p[i];
        assert Distinct(p) && Accepted(m, p, f);
      }
    } else if x in p {
      ApplyEachStepRepeated(m, ids, f);
    } else if x !in m || f(m[x]).Err? {
      ApplyEachStepRejected(m, ids, f);
    } else {
      ApplyEachStepAccepted(m, ids, f);
    }
  }

  /** A batch of a one-shot operation succeeds exactly when the ids are
      distinct, present and each accepted; it then rewrites exactly those entries. */
  lemma {:induction false} ApplyEachSpec(m: Store, ids: seq<string>, f: Resource -> Result<Resource>)
    requires OneShot(f)
    ensures ApplyEach(m, ids, f).Ok? <==>
      Distinct(ids) && forall i :: 0 <= i < |ids| ==> ids[i] in m && f(m[ids[i]]).Ok?
    ensures ApplyEach(m, ids, f).Ok? ==>
      var m' := ApplyEach(m, ids, f).value;
      && m'.Keys == m.Keys
      && (forall i :: 0 <= i < |ids| ==> m'[ids[i]] == f(m[ids[i]]).value)
      && (forall k :: k in m && k !in ids ==> m'[k] == m[k])
    decreases |ids|
  {
    ApplyEachKeepsUnlisted(m, ids, f);
    if ids != [] {
      ApplyEachSpec(m, ids[..|ids| - 1], f);
      ApplyEachStep(m, ids, f);
    }
    if ApplyEach(m, ids, f).Ok? {
      assert AppliedOnce(m, ApplyEach(m, ids, f).value, ids, f);
    }
  }

  lemma UseIsOneShot()
    ensures OneShot(UseResource)
  {
  }

  lemma ReleaseIsOneShot()
    ensures OneShot(ReleaseResource)
  {
  }

  /** The fold behind `use_resources`. */
  function UseEach(m: Store, ids: seq<string>): (res: Result<Store>)
    ensures res.Ok? ==> res.value.Keys == m.Keys
    ensures res.Ok? ==> forall k :: k in m ==> res.value[k].status == (if k in ids then Suspended else m[k].status)
  {
    UseIsOneShot();
    ApplyEachSpec(m, ids, UseResource);
    ApplyEach(m, ids, UseResource)
  }

  /** `use_resources` succeeds exactly when the listed ids are distinct and
      each names an Unused, idle resource; each becomes Suspended and nothing
      else changes. */
  lemma UseEachSpec(m: Store, ids: seq<string>)
    ensures UseEach(m, ids).Ok? <==>
      Distinct(ids) && forall i :: 0 <= i < |ids| ==> ids[i] in m && m[ids[i]].status == Unused && Idle(m[ids[i]])
    ensures UseEach(m, ids).Ok? ==>
      var m' := UseEach(m, ids).value;
      && m'.Keys == m.Keys
      && (forall i :: 0 <= i < |ids| ==> m'[ids[i]] == m[ids[i]].(status := Suspended))
      && (forall k :: k in m && k !in ids ==> m'[k] == m[k])
  {
    UseIsOneShot();
    ApplyEachSpec(m, ids, UseResource);
  }

  /** The fold behind `release_resources`. */
  function ReleaseEach(m: Store, ids: seq<string>): (res: Result<Store>)
    ensures res.Ok? ==> res.value.Keys == m.Keys
    ensures res.Ok? ==> forall k :: k in m && k in ids ==> res.value[k].status == Unused && Idle(res.value[k])
    ensures res.Ok? ==> forall k :: k in m && k !in ids ==> res.value[k] == m[k]
  {
    ReleaseIsOneShot();
    ApplyEachSpec(m, ids, ReleaseResource);
    ApplyEach(m, ids, ReleaseResource)
  }

  /** `release_resources` succeeds exactly when the listed ids are distinct and
      each names a Suspended resource; each is reset and becomes Unused, and
      nothing else changes. */
  lemma ReleaseEachSpec(m: Store, ids: seq<string>)
    ensures ReleaseEach(m, ids).Ok? <==>
      Distinct(ids) && forall i :: 0 <= i < |ids| ==> ids[i] in m && m[ids[i]].status == Suspended
    ensures ReleaseEach(m, ids).Ok? ==>
      var m' := ReleaseEach(m, ids).value;
      && m'.Keys == m.Keys
      && (forall i :: 0 <= i < |ids| ==> m'[ids[i]] == m[ids[i]].(attr := AttrReset(m[ids[i]].attr), status := Unused))
      && (forall k :: k in m && k !in ids ==> m'[k] == m[k])
  {
    ReleaseIsOneShot();
    ApplyEachSpec(m, ids, ReleaseResource);
  }

  /** Every resource operation applied through a batch keeps the entry's id. */
  lemma {:induction false} ApplyEachKeepsKeying(m: Store, ids: seq<string>, f: Resource -> Result<Resource>)
    requires KeyedById(m)
    requires forall x :: f(x).Ok? ==> f(x).value.id == x.id
    ensures ApplyEach(m, ids, f).Ok? ==> KeyedById(ApplyEach(m, ids, f).value)
    decreases |ids|
  {
    if ids != [] {
      ApplyEachKeepsKeying(m, ids[..|ids| - 1], f);
    }
  }

  /** Once a prefix of a batch fails, the whole batch fails the same way. */
  lemma {:induction false} ApplyEachStopsAtFailure(m: Store, ids: seq<string>, j: nat, f: Resource -> Result<Resource>)
    requires j <= |ids| && ApplyEach(m, ids[..j], f).Err?
    ensures ApplyEach(m, ids, f) == ApplyEach(m, ids[..j], f)
    decreases |ids|
  {
    if j < |ids| {
      var n := |ids| - 1;
      assert ids[..n][..j] == ids[..j];
      ApplyEachStopsAtFailure(m, ids[..n], j, f);
    } else {
      assert ids[..j] == ids;
    }
  }

  /** A batch whose prefix succeeded fails at id `ids[i]` with the error of
      that step: NotFound for an absent id, else the operation's own error,
      which for an id already handled earlier in the batch is the error of
      applying the operation a second time. */
  lemma ApplyEachFailsAt(m: Store, ids: seq<string>, i: nat, f: Resource -> Result<Resource>)
    requires OneShot(f) && i < |ids| && ApplyEach(m, ids[..i], f).Ok?
    ensures ids[i] !in m ==> ApplyEach(m, ids, f) == Err(NotFound)
    ensures ids[i] in m && ids[i] !in ids[..i] && f(m[ids[i]]).Err? ==>
      ApplyEach(m, ids, f) == Err(f(m[ids[i]]).error)
    ensures ids[i] in m && ids[i] in ids[..i] ==>
      f(m[ids[i]]).Ok? && ApplyEach(m, ids, f) == Err(f(f(m[ids[i]]).value).error)
  {
    var p, x := ids[..i], ids[i];
    ApplyEachSpec(m, p, f);
    assert ids[..i + 1] == p + [x] && (p + [x])[..i] == p;
    if x in p {
      var j :| 0 <= j < i && p[j] == x;
    }
    if ApplyEach(m, ids[..i + 1], f).Err? {
      ApplyEachStopsAtFailure(m, ids, i + 1, f);
    }
  }

  /** The errors of `use_resources` at its first failing id. */
  lemma UseEachFailsAt(m: Store, ids: seq<string>, i: nat)
    requires i < |ids| && UseEach(m, ids[..i]).Ok?
    ensures ids[i] !in m ==> UseEach(m, ids) == Err(NotFound)
    ensures ids[i] in m && (ids[i] in ids[..i] || m[ids[i]].status != Unused) ==> UseEach(m, ids) == Err(OtherError)
    ensures ids[i] in m && ids[i] !in ids[..i] && m[ids[i]].status == Unused && !Idle(m[ids[i]]) ==>
      UseEach(m, ids) == Err(ResourceOverflow)
  {
    UseIsOneShot();
    ApplyEachFailsAt(m, ids, i, UseResource);
  }

  /** The errors of `release_resources` at its first failing id. */
  lemma ReleaseEachFailsAt(m: Store, ids: seq<string>, i: nat)
    requires i < |ids| && ReleaseEach(m, ids[..i]).Ok?
    ensures ids[i] !in m ==> ReleaseEach(m, ids) == Err(NotFound)
    ensures ids[i] in m && (ids[i] in ids[..i] || m[ids[i]].status != Suspended) ==> ReleaseEach(m, ids) == Err(OtherError)
  {
    ReleaseIsOneShot();
    ApplyEachFailsAt(m, ids, i, ReleaseResource);
  }

  // ------------------------------------------------------------------ update

  /** The fold behind `update_resources`, over the zipped ids and types. */
  function UpdateEach(m: Store, ids: seq<string>, types: seq<ResourceType>): (res: Result<Store>)
    requires |ids| == |types|
    ensures res.Ok? ==> res.value.Keys == m.Keys
    decreases |ids|
  {
    if ids == [] then Ok(m)
    else
      var n := |ids| - 1;
      var m' :- UpdateEach(m, ids[..n], types[..n]);
      Apply(m', ids[n], r => UpdateResource(r, types[n]))
  }

  /** An update batch succeeds exactly when every listed id names an Unused
      resource (repeats are allowed: an update keeps the status), and it
      changes nothing but the configuration of stored resources. */
  lemma {:induction false} UpdateEachSucceeds(m: Store, ids: seq<string>, types: seq<ResourceType>)
    requires |ids| == |types|
    ensures UpdateEach(m, ids, types).Ok? <==>
      forall i :: 0 <= i < |ids| ==> ids[i] in m && m[ids[i]].status == Unused
    ensures UpdateEach(m, ids, types).Ok? ==>
      var m' := UpdateEach(m, ids, types).value;
      m'.Keys == m.Keys && forall k :: k in m ==> m'[k].(attr := m[k].attr) == m[k]
    decreases |ids|
  {
    if ids != [] {
      var n := |ids| - 1;
      var p, ps, x := ids[..n], types[..n], ids[n];
      UpdateEachSucceeds(m, p, ps);
      forall i | 0 <= i < n
        ensures ids[i] == p[i]
      {
      }
      if UpdateEach(m, p, ps).Ok? {
        var m1 := UpdateEach(m, p, ps).value;
        if x in m {
          assert m1[x].(attr := m[x].attr) == m[x];
        }
      } else {
        var i :| 0 <= i < n && !(p[i] in m && m[p[i]].status == Unused);
        assert ids[i] == p[i];
      }
    }
  }

  /** Entries whose ids are not listed keep their value. */
  lemma {:induction false} UpdateEachKeepsUnlisted(m: Store, ids: seq<string>, types: seq<ResourceType>)
    requires |ids| == |types|
    ensures UpdateEach(m, ids, types).Ok? ==>
      forall k :: k in m && k !in ids ==> k in UpdateEach(m, ids, types).value && UpdateEach(m, ids, types).value[k] == m[k]
    decreases |ids|
  {
    if ids != [] {
      var n := |ids| - 1;
      assert ids == ids[..n] + [ids[n]];
      UpdateEachKeepsUnlisted(m, ids[..n], types[..n]);
    }
  }

  /** With distinct ids, each listed entry is the single update of its own type. */
  lemma {:induction false} UpdateEachDistinct(m: Store, ids: seq<string>, types: seq<ResourceType>)
    requires |ids| == |types| && Distinct(ids)
    ensures UpdateEach(m, ids, types).Ok? ==>
      forall i :: 0 <= i < |ids| ==>
        ids[i] in UpdateEach(m, ids, types).value && ids[i] in m &&
        UpdateResource(m[ids[i]], types[i]) == Ok(UpdateEach(m, ids, types).value[ids[i]])
    decreases |ids|
  {
    if ids != [] {
      var n := |ids| - 1;
      var p, ps, x := ids[..n], types[..n], ids[n];
      assert Distinct(p) by {
        forall i, j | 0 <= i < j < |p|
          ensures p[i] != p[j]
        {
          assert p[i] == ids[i] && p[j] == ids[j];
        }
      }
      UpdateEachDistinct(m, p, ps);
      UpdateEachKeepsUnlisted(m, p, ps);
      UpdateEachSucceeds(m, ids, types);
      if UpdateEach(m, ids, types).Ok? {
        assert x !in p by {
          forall j | 0 <= j < n
            ensures p[j] != x
          {
            assert p[j] == ids[j];
          }
        }
        forall i | 0 <= i < n
          ensures ids[i] == p[i] && types[i] == ps[i] && ids[i] != x
        {
        }
      }
    }
  }

  /** `update_resources` as a whole: when it succeeds and what it leaves behind. */
  lemma UpdateEachSpec(m: Store, ids: seq<string>, types: seq<ResourceType>)
    requires |ids| == |types|
    ensures UpdateEach(m, ids, types).Ok? <==>
      forall i :: 0 <= i < |ids| ==> ids[i] in m && m[ids[i]].status == Unused
    ensures UpdateEach(m, ids, types).Ok? ==>
      var m' := UpdateEach(m, ids, types).value;
      && m'.Keys == m.Keys
      && (forall k :: k in m ==> m'[k].(attr := m[k].attr) == m[k])
      && (forall k :: k in m && k !in ids ==> m'[k] == m[k])
      && (Distinct(ids) ==> forall i :: 0 <= i < |ids| ==> UpdateResource(m[ids[i]], types[i]) == Ok(m'[ids[i]]))
  {
    UpdateEachSucceeds(m, ids, types);
    UpdateEachKeepsUnlisted(m, ids, types);
    if Distinct(ids) {
      UpdateEachDistinct(m, ids, types);
    }
  }

  lemma {:induction false} UpdateEachStopsAtFailure(m: Store, ids: seq<string>, types: seq<ResourceType>, j: nat)
    requires |ids| == |types| && j <= |ids| && UpdateEach(m, ids[..j], types[..j]).Err?
    ensures UpdateEach(m, ids, types) == UpdateEach(m, ids[..j], types[..j])
    decreases |ids|
  {
    if j < |ids| {
      var n := |ids| - 1;
      assert ids[..n][..j] == ids[..j] && types[..n][..j] == types[..j];
      UpdateEachStopsAtFailure(m, ids[..n], types[..n], j);
    } else {
      assert ids[..j] == ids && types[..j] == types;
    }
  }

  /** The errors of `update_resources` at its first failing pair. */
  lemma UpdateEachFailsAt(m: Store, ids: seq<string>, types: seq<ResourceType>, i: nat)
    requires |ids| == |types| && i < |ids| && UpdateEach(m, ids[..i], types[..i]).Ok?
    ensures ids[i] !in m ==> UpdateEach(m, ids, types) == Err(NotFound)
    ensures ids[i] in m && m[ids[i]].status != Unused ==> UpdateEach(m, ids, types) == Err(OtherError)
  {
    UpdateEachSucceeds(m, ids[..i], types[..i]);
    var m1 := UpdateEach(m, ids[..i], types[..i]).value;
    assert ids[..i + 1][..i] == ids[..i] && types[..i + 1][..i] == types[..i];
    if ids[i] in m {
      assert m1[ids[i]].(attr := m[ids[i]].attr) == m[ids[i]];
    }
    if UpdateEach(m, ids[..i + 1], types[..i + 1]).Err? {
      UpdateEachStopsAtFailure(m, ids, types, i + 1);
    }
  }

  // --------------------------------------------------------------------- add

  /** One step of `add_resources`: refuse an id already present, else store it under its id. */
  function AddOne(m: Store, r: Resource): (res: Result<Store>)
    ensures res.Ok? <==> r.id !in m
    ensures res.Err? ==> res.error == AlreadyExists
    ensures res.Ok? ==> res.value.Keys == m.Keys + {r.id} && res.value[r.id] == r
    ensures res.Ok? ==> forall k :: k in m ==> res.value[k] == m[k]
  {
    if r.id in m then Err(AlreadyExists) else Ok(m[r.id := r])
  }

  /** The fold behind `add_resources`. */
  function AddEach(m: Store, rs: seq<Resource>): (res: Result<Store>)
    ensures res.Err? ==> res.error == AlreadyExists
    ensures res.Ok? ==> m.Keys <= res.value.Keys && forall k :: k in m ==> res.value[k] == m[k]
    decreases |rs|
  {
    if rs == [] then Ok(m)
    else
      var m' :- AddEach(m, rs[..|rs| - 1]);
      AddOne(m', rs[|rs| - 1])
  }

  ghost function IdsOf(rs: seq<Resource>): set<string>
  {
    set i | 0 <= i < |rs| :: rs[i].id
  }

  ghost predicate DistinctIds(rs: seq<Resource>)
  {
    forall i, j :: 0 <= i < j < |rs| ==> rs[i].id != rs[j].id
  }

  lemma IdsOfSnoc(rs: seq<Resource>, r: Resource)
    ensures IdsOf(rs + [r]) == IdsOf(rs) + {r.id}
  {
    var s := rs + [r];
    forall y | y in IdsOf(s)
      ensures y in IdsOf(rs) + {r.id}
    {
      var i :| 0 <= i < |s| && s[i].id == y;
      if i < |rs| {
        assert s[i] == rs[i];
      }
    }
    forall y | y in IdsOf(rs)
      ensures y in IdsOf(s)
    {
      var i :| 0 <= i < |rs| && rs[i].id == y;
      assert s[i] == rs[i];
    }
    assert s[|rs|] == r;
  }

  /** An add batch succeeds exactly when the new ids are pairwise distinct
      and none is stored yet; the only error is AlreadyExists. */
  lemma {:induction false} AddEachSucceeds(m: Store, rs: seq<Resource>)
    ensures AddEach(m, rs).Ok? <==> DistinctIds(rs) && forall i :: 0 <= i < |rs| ==> rs[i].id !in m
    ensures AddEach(m, rs).Err? ==> AddEach(m, rs).error == AlreadyExists
    ensures AddEach(m, rs).Ok? ==>
      var m' := AddEach(m, rs).value;
      m'.Keys == m.Keys + IdsOf(rs) && forall k :: k in m ==> m'[k] == m[k]
    decreases |rs|
  {
    if rs != [] {
      var n := |rs| - 1;
      var p, x := rs[..n], rs[n];
      assert rs == p + [x];
      IdsOfSnoc(p, x);
      AddEachSucceeds(m, p);
      forall i | 0 <= i < n
        ensures rs[i] == p[i]
      {
      }
      if AddEach(m, p).Ok? {
        var m1 := AddEach(m, p).value;
        if x.id in m1 && x.id !in m {
          // the id was added earlier in the same batch
          var j :| 0 <= j < n && p[j].id == x.id;
          assert rs[j].id == rs[n].id;
        }
        if x.id !in m1 {
          forall i, j | 0 <= i < j < |rs|
            ensures rs[i].id != rs[j].id
          {
            if j == n {
              assert rs[i].id in IdsOf(p);
            }
          }
        }
      }
    }
  }

  /** After a successful add every resource of the batch sits under its own id. */
  lemma {:induction false} AddEachStores(m: Store, rs: seq<Resource>)
    ensures AddEach(m, rs).Ok? ==>
      forall i :: 0 <= i < |rs| ==> rs[i].id in AddEach(m, rs).value && AddEach(m, rs).value[rs[i].id] == rs[i]
    decreases |rs|
  {
    if rs != [] {
      var n := |rs| - 1;
      var p := rs[..n];
      AddEachStores(m, p);
      AddEachSucceeds(m, rs);
      forall i | 0 <= i < n
        ensures rs[i] == p[i]
      {
      }
    }
  }

  /** `add_resources` as a whole. */
  lemma AddEachSpec(m: Store, rs: seq<Resource>)
    ensures AddEach(m, rs).Ok? <==> DistinctIds(rs) && forall i :: 0 <= i < |rs| ==> rs[i].id !in m
    ensures AddEach(m, rs).Err? ==> AddEach(m, rs).error == AlreadyExists
    ensures AddEach(m, rs).Ok? ==>
      var m' := AddEach(m, rs).value;
      && m'.Keys == m.Keys + IdsOf(rs)
      && (forall k :: k in m ==> m'[k] == m[k])
      && (forall i :: 0 <= i < |rs| ==> m'[rs[i].id] == rs[i])
  {
    AddEachSucceeds(m, rs);
    AddEachStores(m, rs);
  }

  lemma {:induction false} AddEachStopsAtFailure(m: Store, rs: seq<Resource>, j: nat)
    requires j <= |rs| && AddEach(m, rs[..j]).Err?
    ensures AddEach(m, rs) == AddEach(m, rs[..j])
    decreases |rs|
  {
    if j < |rs| {
      var n := |rs| - 1;
      assert rs[..n][..j] == rs[..j];
      AddEachStopsAtFailure(m, rs[..n], j);
    } else {
      assert rs[..j] == rs;
    }
  }

  /** Storing a batch keeps every entry under its own id. */
  lemma AddEachKeepsKeying(m: Store, rs: seq<Resource>)
    requires KeyedById(m)
    ensures AddEach(m, rs).Ok? ==> KeyedById(AddEach(m, rs).value)
  {
    AddEachSpec(m, rs);
    if AddEach(m, rs).Ok? {
      var m' := AddEach(m, rs).value;
      forall k | k in m'
        ensures m'[k].id == k
      {
        if k !in m {
          var i :| 0 <= i < |rs| && rs[i].id == k;
        }
      }
    }
  }

  // ------------------------------------------------------------------ delete

  /** One step of `delete_resources`: the id must be present and Unused. */
  function DeleteOne(m: Store, id: string): (res: Result<Store>)
    ensures res.Ok? <==> id in m && m[id].status == Unused
    ensures id !in m ==> res == Err(NotFound)
    ensures id in m && m[id].status != Unused ==> res == Err(OtherError)
    ensures res.Ok? ==> res.value.Keys == m.Keys - {id} && forall k :: k in res.value ==> res.value[k] == m[k]
  {
    if id !in m then Err(NotFound)
    else if m[id].status != Unused then Err(OtherError)
    else Ok(m - {id})
  }

  /** The fold behind `delete_resources`. */
  function DeleteEach(m: Store, ids: seq<string>): (res: Result<Store>)
    ensures res.Err? ==> res.error == NotFound || res.error == OtherError
    ensures res.Ok? ==> res.value.Keys <= m.Keys
    decreases |ids|
  {
    if ids == [] then Ok(m)
    else
      var m' :- DeleteEach(m, ids[..|ids| - 1]);
      DeleteOne(m', ids[|ids| - 1])
  }

  /** `delete_resources` succeeds exactly when the listed ids are distinct,
      present and Unused; it then removes exactly those keys. */
  lemma {:induction false} DeleteEachSpec(m: Store, ids: seq<string>)
    ensures DeleteEach(m, ids).Ok? <==>
      Distinct(ids) && forall i :: 0 <= i < |ids| ==> ids[i] in m && m[ids[i]].status == Unused
    ensures DeleteEach(m, ids).Ok? ==> DeleteEach(m, ids).value == m - (set i | 0 <= i < |ids| :: ids[i])
    decreases |ids|
  {
    if ids != [] {
      var n := |ids| - 1;
      var p, x := ids[..n], ids[n];
      DeleteEachSpec(m, p);
      var gone := set i | 0 <= i < |p| :: p[i];
      var gone' := set i | 0 <= i < |ids| :: ids[i];
      assert gone' == gone + {x} by {
        forall y | y in gone'
          ensures y in gone + {x}
        {
          var i :| 0 <= i < |ids| && ids[i] == y;
          if i < n {
            assert p[i] == ids[i];
          }
        }
        forall y | y in gone
          ensures y in gone'
        {
          var i :| 0 <= i < |p| && p[i] == y;
          assert ids[i] == p[i];
        }
      }
      forall i | 0 <= i < n
        ensures ids[i] == p[i]
      {
      }
      var front := DeleteEach(m, p);
      if front.Ok? {
        var m1 := front.value;
        if x in p {
          var j :| 0 <= j < n && p[j] == x;
          assert ids[j] == ids[n];
        } else {
          assert forall j :: 0 <= j < |p| ==> p[j] != x;
          assert x !in gone;
          if x in m && m[x].status == Unused {
            assert DeleteEach(m, ids).value == m - gone';
          }
        }
      } else if Distinct(ids) {
        assert Distinct(p);
      }
    }
  }

  lemma {:induction false} DeleteEachStopsAtFailure(m: Store, ids: seq<string>, j: nat)
    requires j <= |ids| && DeleteEach(m, ids[..j]).Err?
    ensures DeleteEach(m, ids) == DeleteEach(m, ids[..j])
    decreases |ids|
  {
    if j < |ids| {
      var n := |ids| - 1;
      assert ids[..n][..j] == ids[..j];
      DeleteEachStopsAtFailure(m, ids[..n], j);
    } else {
      assert ids[..j] == ids;
    }
  }

  /** The errors of `delete_resources` at its first failing id; an id listed
      twice is gone by its second turn. */
  lemma DeleteEachFailsAt(m: Store, ids: seq<string>, i: nat)
    requires i < |ids| && DeleteEach(m, ids[..i]).Ok?
    ensures ids[i] !in m || ids[i] in ids[..i] ==> DeleteEach(m, ids) == Err(NotFound)
    ensures ids[i] in m && ids[i] !in ids[..i] && m[ids[i]].status != Unused ==> DeleteEach(m, ids) == Err(OtherError)
  {
    var p, x := ids[..i], ids[i];
    DeleteEachSpec(m, p);
    assert ids[..i + 1] == p + [x] && (p + [x])[..i] == p;
    if x in p {
      var j :| 0 <= j < i && p[j] == x;
    }
    if DeleteEach(m, ids[..i + 1]).Err? {
      DeleteEachStopsAtFailure(m, ids, i + 1);
    }
  }

  /** Deleting keeps the remaining entries under their own ids. */
  lemma DeleteEachKeepsKeying(m: Store, ids: seq<string>)
    requires KeyedById(m)
    ensures DeleteEach(m, ids).Ok? ==> KeyedById(DeleteEach(m, ids).value)
  {
    DeleteEachSpec(m, ids);
  }

  // --------------------------------------------------------------- status

  /** Setting one entry's status, as the order flow does; a missing entry is NotFound. */
  function SetStatusIn(m: Store, id: string, s: Status): (r: Result<Store>)
    ensures r.Ok? <==> id in m
    ensures r.Err? ==> r.error == NotFound
    ensures r.Ok? ==> r.value.Keys == m.Keys && r.value[id].status == s && r.value[id].(status := m[id].status) == m[id]
    ensures r.Ok? ==> forall k :: k in m && k != id ==> r.value[k] == m[k]
  {
    if id !in m then Err(NotFound) else Ok(m[id := SetStatus(m[id], s)])
  }

  // ------------------------------------------------------------------ store

  /** RESOURCE_MAP together with the admin-gated operations that update it. */
  class ResourceStore {
    var resources: Store

    ghost predicate Valid()
      reads this
    {
      KeyedById(resources)
    }

    constructor ()
      ensures Valid() && resources == map[]
    {
      resources := map[];
    }

    /** `query_resources`: collects the present resources, skipping absent ids. */
    method QueryResources(ids: seq<string>) returns (rs: seq<Resource>)
      ensures rs == Lookup(resources, ids)
    {
      rs := [];
      var i := 0;
      while i < |ids|
        invariant 0 <= i <= |ids|
        invariant rs == Lookup(resources, ids[..i])
      {
        assert ids[..i + 1][..i] == ids[..i];
        if ids[i] in resources {
          rs := rs + [resources[ids[i]]];
        }
        i := i + 1;
      }
      assert ids[..i] == ids;
    }

    /** `use_resources`. On any failure the host reverts the transaction,
        which the model shows by restoring the map. */
    method UseResources(sender: Addr, admins: set<Addr>, ids: seq<string>) returns (res: Result<()>)
      requires Valid()
      modifies this
      ensures Valid()
      ensures sender !in admins ==> res == Err(Unauthorized)
      ensures sender in admins ==> res == Unit(UseEach(old(resources), ids))
      ensures resources == if res.Ok? then UseEach(old(resources), ids).value else old(resources)
    {
      if sender !in admins {
        return Err(Unauthorized);
      }
      var saved := resources;  // what the host restores when the call fails
      var i := 0;
      while i < |ids|
        invariant 0 <= i <= |ids|
        invariant UseEach(saved, ids[..i]) == Ok(resources)
        invariant KeyedById(resources)
      {
        assert ids[..i + 1][..i] == ids[..i];
        var id := ids[i];
        if id !in resources {
          ApplyEachStopsAtFailure(saved, ids, i + 1, UseResource);
          resources := saved;
          return Err(NotFound);
        }
        var r := UseResource(resources[id]);
        if r.Err? {
          ApplyEachStopsAtFailure(saved, ids, i + 1, UseResource);
          resources := saved;
          return Err(r.error);
        }
        resources := resources[id := r.value];
        i := i + 1;
      }
      assert ids[..i] == ids;
      return Ok(());
    }

    /** `update_resources`: ids and types are applied pairwise after a length check. */
    method UpdateResources(sender: Addr, admins: set<Addr>, ids: seq<string>, types: seq<ResourceType>)
      returns (res: Result<()>)
      requires Valid()
      modifies this
      ensures Valid()
      ensures sender !in admins ==> res == Err(Unauthorized)
      ensures sender in admins && |ids| != |types| ==> res == Err(OtherError)
      ensures sender in admins && |ids| == |types| ==> res == Unit(UpdateEach(old(resources), ids, types))
      ensures resources == if res.Ok? then UpdateEach(old(resources), ids, types).value else old(resources)
    {
      if sender !in admins {
        return Err(Unauthorized);
      }
      if |ids| != |types| {
        return Err(OtherError);
      }
      var saved := resources;
      var i := 0;
      while i < |ids|
        invariant 0 <= i <= |ids|
        invariant UpdateEach(saved, ids[..i], types[..i]) == Ok(resources)
        invariant KeyedById(resources)
      {
        assert ids[..i + 1][..i] == ids[..i] && types[..i + 1][..i] == types[..i];
        var id, t := ids[i], types[i];
        if id !in resources {
          UpdateEachStopsAtFailure(saved, ids, types, i + 1);
          resources := saved;
          return Err(NotFound);
        }
        var r := UpdateResource(resources[id], t);
        if r.Err? {
          UpdateEachStopsAtFailure(saved, ids, types, i + 1);
          resources := saved;
          return Err(r.error);
        }
        resources := resources[id := r.value];
        i := i + 1;
      }
      assert ids[..i] == ids && types[..i] == types;
      return Ok(());
    }

    /** `add_resources`: each resource is stored under its own id, refusing one already there. */
    method AddResources(sender: Addr, admins: set<Addr>, rs: seq<Resource>) returns (res: Result<()>)
      requires Valid()
      modifies this
      ensures Valid()
      ensures sender !in admins ==> res == Err(Unauthorized)
      ensures sender in admins ==> res == Unit(AddEach(old(resources), rs))
      ensures resources == if res.Ok? then AddEach(old(resources), rs).value else old(resources)
    {
      if sender !in admins {
        return Err(Unauthorized);
      }
      var saved := resources;
      var i := 0;
      while i < |rs|
        invariant 0 <= i <= |rs|
        invariant AddEach(saved, rs[..i]) == Ok(resources)
        invariant KeyedById(resources)
      {
        assert rs[..i + 1][..i] == rs[..i];
        var r := rs[i];
        if r.id in resources {
          AddEachStopsAtFailure(saved, rs, i + 1);
          resources := saved;
          return Err(AlreadyExists);
        }
        resources := resources[r.id := r];
        i := i + 1;
      }
      assert rs[..i] == rs;
      return Ok(());
    }

    /** `release_resources`. */
    method ReleaseResources(sender: Addr, admins: set<Addr>, ids: seq<string>) returns (res: Result<()>)
      requires Valid()
      modifies this
      ensures Valid()
      ensures sender !in admins ==> res == Err(Unauthorized)
      ensures sender in admins ==> res == Unit(ReleaseEach(old(resources), ids))
      ensures resources == if res.Ok? then ReleaseEach(old(resources), ids).value else old(resources)
    {
      if sender !in admins {
        return Err(Unauthorized);
      }
      var saved := resources;
      var i := 0;
      while i < |ids|
        invariant 0 <= i <= |ids|
        invariant ReleaseEach(saved, ids[..i]) == Ok(resources)
        invariant KeyedById(resources)
      {
        assert ids[..i + 1][..i] == ids[..i];
        var id := ids[i];
        if id !in resources {
          ApplyEachStopsAtFailure(saved, ids, i + 1, ReleaseResource);
          resources := saved;
          return Err(NotFound);
        }
        var r := ReleaseResource(resources[id]);
        if r.Err? {
          ApplyEachStopsAtFailure(saved, ids, i + 1, ReleaseResource);
          resources := saved;
          return Err(r.error);
        }
        resources := resources[id := r.value];
        i := i + 1;
      }
      assert ids[..i] == ids;
      return Ok(());
    }

    /** `delete_resources`: only present, Unused resources may be removed. */
    method DeleteResources(sender: Addr, admins: set<Addr>, ids: seq<string>) returns (res: Result<()>)
      requires Valid()
      modifies this
      ensures Valid()
      ensures sender !in admins ==> res == Err(Unauthorized)
      ensures sender in admins ==> res == Unit(DeleteEach(old(resources), ids))
      ensures resources == if res.Ok? then DeleteEach(old(resources), ids).value else old(resources)
    {
      if sender !in admins {
        return Err(Unauthorized);
      }
      var saved := resources;
      var i := 0;
      while i < |ids|
        invariant 0 <= i <= |ids|
        invariant DeleteEach(saved, ids[..i]) == Ok(resources)
        invariant KeyedById(resources)
      {
        assert ids[..i + 1][..i] == ids[..i];
        var id := ids[i];
        if id !in resources {
          DeleteEachStopsAtFailure(saved, ids, i + 1);
          resources := saved;
          return Err(NotFound);
        }
        if resources[id].status != Unused {
          DeleteEachStopsAtFailure(saved, ids, i + 1);
          resources := saved;
          return Err(OtherError);
        }
        resources := resources - {id};
        i := i + 1;
      }
      assert ids[..i] == ids;
      return Ok(());
    }

    /** Sets one entry's status, as the order flow does when it takes or frees a resource. */
    method UpdateStatus(id: string, s: Status) returns (res: Result<()>)
      requires Valid()
      modifies this
      ensures Valid()
      ensures res == Unit(SetStatusIn(old(resources), id, s))
      ensures resources == if res.Ok? then SetStatusIn(old(resources), id, s).value else old(resources)
    {
      if id !in resources {
        return Err(NotFound);
      }
      resources := resources[id := SetStatus(resources[id], s)];
      return Ok(());
    }
  }
}
