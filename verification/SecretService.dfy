// The secret table as the control plane updates it, and the two loops that resolve the secrets
// of a binding.
module SecretService {
  import opened Domain
  import opened SecretModel
  import opened SecretProofs

  class SecretStore {
    var rows: seq<Secret>
    var links: set<Link>

    constructor ()
      ensures rows == [] && links == {}
    {
      rows, links := [], {};
    }

    function View(): Store
      reads this
    {
      Store(rows, links)
    }

    method FindActiveByName(environment: int, name: string) returns (found: bool)
      ensures found <==> Exists(rows, environment, name)
    {
      found := false;
      for i := 0 to |rows|
        invariant !found
        invariant forall j :: 0 <= j < i ==> !(rows[j].environment == environment && rows[j].name == name && rows[j].active)
      {
        if rows[i].environment == environment && rows[i].name == name && rows[i].active {
          return true;
        }
      }
    }

    method CreateSecretRef(environment: int, name: string, provider: string, kind: string, value: string, clock: int)
      returns (r: Result<nat, SecretError>)
      modifies this`rows
      ensures View() == Step(old(View()), CreateOp(environment, name, provider, kind, value, clock))
      ensures r.Ok? <==> !Exists(old(rows), environment, name)
      ensures r.Ok? ==> r.value < |rows| && rows[r.value] == FirstVersion(environment, name, provider, kind, value, clock)
    {
      var found := FindActiveByName(environment, name);
      if found {
        return Err(AlreadyExists);
      }
      rows := rows + [Secret(environment, name, provider, kind, 1, true, false, None, value, clock)];
      r := Ok(|rows| - 1);
    }

    // SELECT ... WHERE is_active_version ORDER BY version DESC, first row.
    method FindCurrentActive(anchor: Secret) returns (r: Option<nat>)
      ensures r == CurrentActive(rows, anchor, |rows|)
    {
      r := None;
      for i := 0 to |rows|
        invariant r == CurrentActive(rows, anchor, i)
      {
        if rows[i].active && SameFamily(rows[i], anchor) && (r.None? || rows[i].version > rows[r.value].version) {
          r := Some(i);
        }
      }
    }

    method RotateSecretRef(id: nat, value: string, clock: int, fails: bool) returns (r: Result<nat, SecretError>)
      requires id < |rows|
      modifies this`rows
      ensures View() == Step(old(View()), RotateOp(id, value, clock, fails))
      ensures r.Ok? <==> FamilyLinked(old(rows), links, old(rows)[id]) && !fails
      ensures r.Err? ==> rows == old(rows)
      ensures r.Ok? ==> r.value == |old(rows)| && |rows| == |old(rows)| + 1
    {
      var anchor := rows[id];
      var impacted := set l | l in links && l.secret < |rows| && SameFamily(rows[l.secret], anchor) :: l.binding;
      ghost var witnesses := set l | l in links && l.secret < |rows| && SameFamily(rows[l.secret], anchor);
      assert forall l :: l in witnesses ==> l.binding in impacted;
      assert impacted != {} <==> FamilyLinked(rows, links, anchor) by {
        if FamilyLinked(rows, links, anchor) {
          var l :| l in links && l.secret < |rows| && SameFamily(rows[l.secret], anchor);
          assert l in witnesses;
        }
      }
      if impacted == {} {
        return Err(NotLinked);
      }
      var current := FindCurrentActive(anchor);
      var next := (if current.Some? then rows[current.value].version else anchor.version) + 1;
      var rotated := Secret(anchor.environment, anchor.name, anchor.provider, anchor.kind, next, true, false, None, value, clock);
      var saved := rows;
      if current.Some? {
        rows := rows[current.value := rows[current.value].(active := false, updatedAt := clock)];
      }
      rows := rows[id := rows[id].(active := false, updatedAt := clock)];
      rows := rows + [rotated];
      if fails {
        rows := saved;
        return Err(RotationFailed);
      }
      r := Ok(|rows| - 1);
    }

    method RevokeSecretRef(id: nat, clock: int)
      requires id < |rows|
      modifies this`rows
      ensures View() == Step(old(View()), RevokeOp(id, clock))
    {
      rows := rows[id := rows[id].(revoked := true, updatedAt := clock)];
    }

    // The resolution query.
    method ResolveLatestValid(anchor: Secret, now: int) returns (r: Option<nat>)
      ensures r == Resolve(rows, anchor, now, |rows|)
    {
      r := None;
      for i := 0 to |rows|
        invariant r == Resolve(rows, anchor, now, i)
      {
        if Matches(rows[i], anchor, now) && (r.None? || Before(rows[i], rows[r.value])) {
          r := Some(i);
        }
      }
    }

    // resolve_active_binding: the decrypted secrets by kind.
    method ResolveActiveBinding(anchors: seq<nat>, now: int) returns (resolved: map<string, string>)
      requires AnchorsExist(rows, anchors)
      ensures resolved.Keys == ResolveLastWins(rows, anchors, now).Keys
      ensures forall kind :: kind in resolved ==>
                var k := ResolveLastWins(rows, anchors, now)[kind];
                k < |rows| && resolved[kind] == rows[k].value
    {
      resolved := map[];
      for i := 0 to |anchors|
        invariant AnchorsExist(rows, anchors[..i])
        invariant resolved.Keys == ResolveLastWins(rows, anchors[..i], now).Keys
        invariant forall kind :: kind in resolved ==>
                    var k := ResolveLastWins(rows, anchors[..i], now)[kind];
                    k < |rows| && resolved[kind] == rows[k].value
      {
        assert anchors[..i + 1][..i] == anchors[..i];
        var latest := ResolveLatestValid(rows[anchors[i]], now);
        if latest.Some? {
          resolved := resolved[rows[latest.value].kind := rows[latest.value].value];
        }
      }
      assert anchors[..|anchors|] == anchors;
    }

    // _required_secret_validation_detail: the required kinds no linked secret provides now.
    method RequiredSecretValidationDetail(required: set<string>, anchors: seq<nat>, now: int) returns (missing: set<string>)
      requires AnchorsExist(rows, anchors)
      ensures missing == required - ResolveFirstWins(rows, anchors, now).Keys
      ensures forall kind :: kind in missing <==>
                kind in required && !exists i, k :: 0 <= i < |anchors| && Provides(rows, anchors[i], now, kind, k)
    {
      var byKind: map<string, nat> := map[];
      for i := 0 to |anchors|
        invariant AnchorsExist(rows, anchors[..i])
        invariant byKind == ResolveFirstWins(rows, anchors[..i], now)
      {
        assert anchors[..i + 1][..i] == anchors[..i];
        var latest := ResolveLatestValid(rows[anchors[i]], now);
        if latest.Some? && rows[latest.value].kind !in byKind {
          byKind := byKind[rows[latest.value].kind := latest.value];
        }
      }
      assert anchors[..|anchors|] == anchors;
      missing := required - byKind.Keys;
      forall kind ensures kind in byKind <==> exists i, k :: 0 <= i < |anchors| && Provides(rows, anchors[i], now, kind, k) {
        FirstWinsKeys(rows, anchors, now, kind);
      }
    }

    // A binding that passes the activation check finds every required secret at run time.
    method ActivateThenResolve(required: set<string>, checked: seq<nat>, used: seq<nat>, now: int)
      returns (passed: bool, resolved: map<string, string>)
      requires AnchorsExist(rows, checked) && AnchorsExist(rows, used) && SameAnchors(checked, used)
      ensures passed <==> required <= resolved.Keys
    {
      var missing := RequiredSecretValidationDetail(required, checked, now);
      passed := missing == {};
      resolved := ResolveActiveBinding(used, now);
      ActivationSeesRuntimeKinds(rows, checked, used, now);
    }
  }
}
