/** The store of pending device grants: creation, lookup, the expiry
    predicate and the removal of one application's expired grants. */
module DeviceGrants {
  import opened Wrappers
  import opened Scopes

  /** A pending device grant. Times and durations are in seconds. */
  datatype Grant = Grant(
    id: nat,
    applicationId: nat,
    userCode: string,
    scopes: seq<Scope>,
    createdAt: nat,
    expiresIn: nat)

  /** The grants in id order and the id the next created grant receives. */
  datatype Store = Store(grants: seq<Grant>, nextId: nat)

  /** A grant is expired once its lifetime has fully elapsed: its age has
      reached `expiresIn`. A grant created now with a positive lifetime is
      not expired. */
  function Expired(g: Grant, now: nat): (b: bool)
    ensures b <==> g.createdAt <= now && now - g.createdAt >= g.expiresIn
    ensures g.createdAt == now && g.expiresIn > 0 ==> !b
  {
    g.createdAt + g.expiresIn <= now
  }

  /** A grant the reaping step for `appId` at `now` removes. */
  predicate Reapable(g: Grant, appId: nat, now: nat) {
    g.applicationId == appId && Expired(g, now)
  }

  /** Ids strictly increase along the store, and every id was handed out. */
  predicate Wf(s: Store) {
    && (forall i, j :: 0 <= i < j < |s.grants| ==> s.grants[i].id < s.grants[j].id)
    && (forall i :: 0 <= i < |s.grants| ==> s.grants[i].id < s.nextId)
  }

  /** The store of a fresh database; ids start at 1. */
  function EmptyStore(): (s: Store)
    ensures Wf(s) && |s.grants| == 0
  {
    Store([], 1)
  }

  /** Number of grants in the store; zero exactly when no id finds a grant. */
  function Count(s: Store): (n: nat)
    ensures n == 0 <==> forall id :: FindById(s.grants, id).None?
  {
    assert |s.grants| > 0 ==> FindById(s.grants, s.grants[0].id).Some?;
    |s.grants|
  }

  /** The grant with the given id, if the store holds one. */
  function FindById(gs: seq<Grant>, id: nat): (r: Option<Grant>)
    ensures r.None? <==> forall g :: g in gs ==> g.id != id
    ensures r.Some? ==> r.value in gs && r.value.id == id
  {
    if |gs| == 0 then None
    else if gs[0].id == id then Some(gs[0])
    else FindById(gs[1..], id)
  }

  /** The grant with the smallest id, if any. */
  function First(s: Store): (r: Option<Grant>)
    requires Wf(s)
    ensures r.None? <==> |s.grants| == 0
    ensures r.Some? ==> r.value in s.grants && forall g :: g in s.grants ==> r.value.id <= g.id
  {
    if |s.grants| == 0 then None else Some(s.grants[0])
  }

  /** The outcome of a creation: the new store and the grant it holds. */
  datatype Created = Created(store: Store, grant: Grant)

  /** Creates a grant with a fresh id; the grants already stored are kept. */
  function Create(s: Store, appId: nat, userCode: string, scopes: seq<Scope>,
                  createdAt: nat, expiresIn: nat): (r: Created)
    ensures r.grant.applicationId == appId && r.grant.userCode == userCode
    ensures r.grant.scopes == scopes
    ensures r.grant.createdAt == createdAt && r.grant.expiresIn == expiresIn
    ensures Count(r.store) == Count(s) + 1
    ensures forall g :: g in r.store.grants <==> g in s.grants || g == r.grant
    ensures Wf(s) ==> Wf(r.store) && FindById(s.grants, r.grant.id).None?
  {
    var g := Grant(s.nextId, appId, userCode, scopes, createdAt, expiresIn);
    Created(Store(s.grants + [g], s.nextId + 1), g)
  }

  /** Number of grants in `gs` that reaping for `appId` at `now` removes. */
  function CountReapable(gs: seq<Grant>, appId: nat, now: nat): (n: nat)
    ensures n <= |gs|
  {
    if |gs| == 0 then 0
    else (if Reapable(gs[0], appId, now) then 1 else 0) + CountReapable(gs[1..], appId, now)
  }

  /** The grants of `gs` that reaping keeps, in their order. */
  function KeepUnreapable(gs: seq<Grant>, appId: nat, now: nat): (r: seq<Grant>)
    ensures forall g :: g in r <==> g in gs && !Reapable(g, appId, now)
    ensures |r| == |gs| - CountReapable(gs, appId, now)
    ensures (forall i, j :: 0 <= i < j < |gs| ==> gs[i].id < gs[j].id) ==>
            (forall i, j :: 0 <= i < j < |r| ==> r[i].id < r[j].id)
  {
    if |gs| == 0 then []
    else
      var rest := KeepUnreapable(gs[1..], appId, now);
      if Reapable(gs[0], appId, now) then rest
      else
        assert (forall i, j :: 0 <= i < j < |gs| ==> gs[i].id < gs[j].id) ==>
               forall g :: g in rest ==> gs[0].id < g.id by {
          forall g | g in rest ensures g in gs[1..] { }
        }
        [gs[0]] + rest
  }

  /** Deletes the expired grants of application `appId`; nothing else changes. */
  function DeleteExpiredFor(s: Store, appId: nat, now: nat): (r: Store)
    ensures forall g :: g in r.grants <==> g in s.grants && !Reapable(g, appId, now)
    ensures Count(r) == Count(s) - CountReapable(s.grants, appId, now)
    ensures r.nextId == s.nextId
    ensures Wf(s) ==> Wf(r)
  {
    var r := Store(KeepUnreapable(s.grants, appId, now), s.nextId);
    assert forall i :: 0 <= i < |r.grants| ==> r.grants[i] in s.grants;
    r
  }

  /** In a well-formed store a grant is found by its own id. */
  lemma {:induction false} FindByIdOfMember(s: Store, g: Grant)
    requires Wf(s) && g in s.grants
    ensures FindById(s.grants, g.id) == Some(g)
  {
    var r := FindById(s.grants, g.id);
    var k :| 0 <= k < |s.grants| && s.grants[k] == r.value;
    var m :| 0 <= m < |s.grants| && s.grants[m] == g;
    assert k == m;
  }

  /** Reaping twice at the same time removes nothing more. */
  lemma {:induction false} DeleteExpiredForIdempotent(s: Store, appId: nat, now: nat)
    ensures DeleteExpiredFor(DeleteExpiredFor(s, appId, now), appId, now) == DeleteExpiredFor(s, appId, now)
  {
    KeepUnreapableIdempotent(s.grants, appId, now);
  }

  lemma {:induction false} KeepUnreapableIdempotent(gs: seq<Grant>, appId: nat, now: nat)
    ensures KeepUnreapable(KeepUnreapable(gs, appId, now), appId, now) == KeepUnreapable(gs, appId, now)
  {
    if |gs| > 0 {
      KeepUnreapableIdempotent(gs[1..], appId, now);
      var rest := KeepUnreapable(gs[1..], appId, now);
      if !Reapable(gs[0], appId, now) {
        assert ([gs[0]] + rest)[1..] == rest;
      }
    }
  }
}
