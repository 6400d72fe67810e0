/** Reading permissions: _get_effective_perms for one user and one permission, and has_perm. */
module PermissionQueries {
  import opened Wrappers
  import opened PermissionTables
  import opened PermissionRows
  import opened PermissionInvariants
  import opened PermissionInheritance
  import opened AssetForest
  import opened PermissionSteps
  import opened PermissionConsistency
  import opened PermissionRuns

  /** What has_perm reads of a user; the anonymous user is the database account standing for it. */
  datatype Account = Account(id: User, isActive: bool, isSuperuser: bool)

  predicate IsAnonymous(u: User) {
    u == ANONYMOUS_USER_ID
  }

  /** A `delete_` permission, which an owner has without any row. */
  predicate Calculated(kind: AssetType, p: Perm) {
    p == DeleteAsset || (p == DeleteSubmissions && kind == Survey)
  }

  predicate HasCalculated(a: Asset, u: User, p: Perm) {
    a.owner == Some(u) && Calculated(a.kind, p)
  }

  /** u holds p by its own rows, or as the owner. */
  predicate Holds(a: Asset, R: Rows, u: User, p: Perm) {
    (Granted(R, u, p) && !Denied(R, u, p)) || HasCalculated(a, u, p)
  }

  /** The rows of u that grant (or deny) p, as (user, permission) pairs; a user other than
      the anonymous one is given the anonymous user's pairs too. */
  method GetObjectPermissions(R: Rows, deny: bool, u: User, p: Perm) returns (perms: Perms)
    ensures forall v, q :: (v, q) in perms <==>
              q == p && (v == u || v == ANONYMOUS_USER_ID) && (if deny then Denied(R, v, q) else Granted(R, v, q))
  {
    perms := set r | r in R && r.user == ANONYMOUS_USER_ID && r.deny == deny && r.perm == p :: (r.user, r.perm);
    ghost var ofAnonymous := perms;
    forall v, q ensures (v, q) in perms <==>
                        q == p && v == ANONYMOUS_USER_ID && (if deny then Denied(R, v, q) else Granted(R, v, q))
    {
      PairsOfUser(R, deny, ANONYMOUS_USER_ID, p, v, q);
    }
    if !IsAnonymous(u) {
      var own := set r | r in R && r.user == u && r.deny == deny && r.perm == p :: (r.user, r.perm);
      forall v, q ensures (v, q) in own <==> q == p && v == u && (if deny then Denied(R, v, q) else Granted(R, v, q)) {
        PairsOfUser(R, deny, u, p, v, q);
      }
      perms := perms + own;
    }
  }

  lemma PairsOfUser(R: Rows, deny: bool, u: User, p: Perm, v: User, q: Perm)
    ensures (v, q) in (set r | r in R && r.user == u && r.deny == deny && r.perm == p :: (r.user, r.perm)) <==>
            q == p && v == u && (if deny then Denied(R, v, q) else Granted(R, v, q))
  {
    var pairs := set r | r in R && r.user == u && r.deny == deny && r.perm == p :: (r.user, r.perm);
    if (v, q) in pairs {
      var r :| r in R && r.user == u && r.deny == deny && r.perm == p && (r.user, r.perm) == (v, q);
      assert r == Row(u, p, deny, r.inherited);
    }
    forall inherited | Row(u, p, deny, inherited) in R ensures (u, p) in pairs {
      var r := Row(u, p, deny, inherited);
      assert (r.user, r.perm) == (u, p);
    }
  }

  /** _get_effective_perms(user, codename): at most one pair for the user and one for the anonymous user. */
  method GetEffectivePermsOf(t: Tables, a: Asset, R: Rows, u: User, p: Perm) returns (perms: Perms)
    ensures forall v, q :: (v, q) in perms <==>
              && q == p && (v == u || v == ANONYMOUS_USER_ID)
              && (if v == u then Holds(a, R, v, q) else Granted(R, v, q) && !Denied(R, v, q))
              && (IsAnonymous(u) ==> p in t.allowedAnonymous)
    ensures a.owner == Some(u) && !IsAnonymous(u) &&
            (p == DeleteAsset || (p == DeleteSubmissions && a.kind == Survey)) ==>
              (u, p) in perms
    ensures (a.owner != Some(u) || (p != DeleteAsset && p != DeleteSubmissions)
             || (p == DeleteSubmissions && a.kind != Survey)) ==>
              ((u, p) in perms <==>
               Granted(R, u, p) && !Denied(R, u, p) && (IsAnonymous(u) ==> p in t.allowedAnonymous))
  {
    var grantPerms := GetObjectPermissions(R, false, u, p);
    var denyPerms := GetObjectPermissions(R, true, u, p);
    perms := grantPerms - denyPerms;
    if HasCalculated(a, u, p) {
      perms := perms + {(u, p)};
    }
    if IsAnonymous(u) {
      perms := set x | x in perms && x.1 in t.allowedAnonymous;
    }
  }

  /** What has_perm is for: active superusers have everything; others have what they effectively hold, what a
      project view gives them, and whatever the public effectively has and may have. */
  predicate Entitled(t: Tables, a: Asset, R: Rows, user: Account, p: Perm, byProjectView: bool) {
    || (user.isActive && user.isSuperuser)
    || (!IsAnonymous(user.id) && (Holds(a, R, user.id, p) || byProjectView))
    || PublicHas(t, a, R, p)
  }

  predicate PublicHas(t: Tables, a: Asset, R: Rows, p: Perm) {
    Holds(a, R, ANONYMOUS_USER_ID, p) && p in t.allowedAnonymous
  }

  /** The anonymous user's grants that no denial cancels, whether or not it may have them. */
  predicate PublicRow(R: Rows, p: Perm) {
    Granted(R, ANONYMOUS_USER_ID, p) && !Denied(R, ANONYMOUS_USER_ID, p)
  }

  /** has_perm. It looks for exactly one pair, and finds two when both the user and the public hold p; then the answer
      is the public's. So it is right exactly when the public's rows stay within what the public may have,
      or the answer comes from elsewhere. */
  method HasPerm(t: Tables, a: Asset, R: Rows, user: Account, p: Perm, byProjectView: bool) returns (result: bool)
    requires a.owner != Some(ANONYMOUS_USER_ID)
    ensures (result <==> Entitled(t, a, R, user, p, byProjectView)) <==>
            || (PublicRow(R, p) ==> p in t.allowedAnonymous)
            || (user.isActive && user.isSuperuser)
            || IsAnonymous(user.id)
            || byProjectView
    // an owner may delete its asset, and the submissions of its survey, whatever the rows say
    ensures (PublicRow(R, p) ==> p in t.allowedAnonymous) ==>
              (result <==>
               || (user.isActive && user.isSuperuser)
               || (user.id != ANONYMOUS_USER_ID
                   && (|| byProjectView
                       || (Granted(R, user.id, p) && !Denied(R, user.id, p))
                       || (a.owner == Some(user.id) && p == DeleteAsset)
                       || (a.owner == Some(user.id) && p == DeleteSubmissions && a.kind == Survey)))
               || (Granted(R, ANONYMOUS_USER_ID, p) && !Denied(R, ANONYMOUS_USER_ID, p)))
  {
    if user.isActive && user.isSuperuser {
      return true;
    }
    var perms := GetEffectivePermsOf(t, a, R, user.id, p);
    result := |perms| == 1;
    forall x | x in perms ensures x == (user.id, p) || x == (ANONYMOUS_USER_ID, p) {
      var (v, q) := x;
      assert (v, q) in perms;
    }
    SizeOfPairs(perms, user.id, p);
    if !result && !IsAnonymous(user.id) {
      result := byProjectView;
      if !result {
        result := HasPermOfPublic(t, a, R, p);
      }
    }
    if result && IsAnonymous(user.id) {
      if p !in t.allowedAnonymous {
        return false;
      }
    }
  }

  /** has_perm for the anonymous user, whose database account is no superuser. */
  method HasPermOfPublic(t: Tables, a: Asset, R: Rows, p: Perm) returns (result: bool)
    requires a.owner != Some(ANONYMOUS_USER_ID)
    ensures result <==> PublicHas(t, a, R, p)
  {
    var perms := GetEffectivePermsOf(t, a, R, ANONYMOUS_USER_ID, p);
    forall x | x in perms ensures x == (ANONYMOUS_USER_ID, p) {
      var (v, q) := x;
      assert (v, q) in perms;
    }
    SizeOfPairs(perms, ANONYMOUS_USER_ID, p);
    result := |perms| == 1;
    if result && p !in t.allowedAnonymous {
      return false;
    }
  }

  /** Pairs of one permission and at most two users: there is one when exactly one of the users is there. */
  lemma SizeOfPairs(perms: Perms, u: User, p: Perm)
    requires forall x :: x in perms ==> x == (u, p) || x == (ANONYMOUS_USER_ID, p)
    ensures |perms| == 1 <==>
            if IsAnonymous(u) then (u, p) in perms else ((u, p) in perms) != ((ANONYMOUS_USER_ID, p) in perms)
  {
    var mine, public := (u, p), (ANONYMOUS_USER_ID, p);
    if mine in perms && public in perms {
      assert perms == {mine, public};
    } else if mine in perms {
      assert perms == {mine};
    } else if public in perms {
      assert perms == {public};
    } else {
      assert perms == {};
    }
  }

  /** In every state of every run the condition under which has_perm is right holds. */
  lemma PublicRowsAreAllowed(t: Tables, states: seq<State>, ops: seq<Op>, i: nat, n: AssetId, p: Perm)
    requires t.Wf() && IsRun(t, states, ops) && i < |states| && n in states[i].assets
    ensures n in states[i].table && (PublicRow(states[i].table[n], p) ==> p in t.allowedAnonymous)
    ensures states[i].assets[n].owner != Some(ANONYMOUS_USER_ID)
  {
    RunIsConsistent(t, states, ops, i, false);
    EveryRunIsConsistent(t, states, ops, i, n);
    assert OwnerOk(states[i].assets[n]);
  }
}
