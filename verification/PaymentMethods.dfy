/** Saved payment methods: of a user's methods exactly one is the default. */
module PaymentMethods {
  import opened Wrappers

  type UserId = nat
  type MethodId = nat
  type Token = nat
  type Time = int

  datatype Method = Method(id: MethodId, user: UserId, token: Token, isDefault: bool, createdAt: Time)

  /** The rows, and the ids handed out so far: a new id was never used. */
  datatype State = State(rows: seq<Method>, nextId: MethodId)

  const EMPTY_STATE := State([], 0)

  datatype Error = MethodNotFound(id: MethodId) | ProviderError

  // ------------------------------------------------------------------- operations

  predicate HasMethods(rows: seq<Method>, u: UserId) {
    exists m :: m in rows && m.user == u
  }

  function Cleared(m: Method, u: UserId): Method {
    if m.user == u && m.isDefault then m.(isDefault := false) else m
  }

  function ClearDefault(rows: seq<Method>, u: UserId): (cleared: seq<Method>)
    ensures |cleared| == |rows|
  {
    seq(|rows|, i requires 0 <= i < |rows| => Cleared(rows[i], u))
  }

  /** `saved` is what the provider made of the intent token, if it accepted it. */
  function Save(st: State, u: UserId, wantsDefault: bool, saved: Option<Token>,
                now: Time): (State, Result<Method, Error>) {
    if saved.None? then (st, Err(ProviderError))
    else
      var makeDefault := wantsDefault || !HasMethods(st.rows, u);
      var m := Method(st.nextId, u, saved.value, makeDefault, now);
      (State((if makeDefault then ClearDefault(st.rows, u) else st.rows) + [m], st.nextId + 1), Ok(m))
  }

  predicate Owned(m: Method, u: UserId, id: MethodId) {
    m.id == id && m.user == u
  }

  /** The position of the caller's method, or the table's length. */
  function Find(rows: seq<Method>, u: UserId, id: MethodId): (i: nat)
    ensures i <= |rows|
    ensures i < |rows| ==> Owned(rows[i], u, id)
    ensures forall k :: 0 <= k < i ==> !Owned(rows[k], u, id)
  {
    if rows == [] || Owned(rows[0], u, id) then 0 else 1 + Find(rows[1..], u, id)
  }

  function SetDefault(st: State, u: UserId, id: MethodId): (State, Result<Method, Error>) {
    var i := Find(st.rows, u, id);
    if i == |st.rows| then (st, Err(MethodNotFound(id)))
    else
      var m := st.rows[i].(isDefault := true);
      (st.(rows := ClearDefault(st.rows, u)[i := m]), Ok(m))
  }

  function Without(rows: seq<Method>, i: nat): seq<Method>
    requires i < |rows|
  {
    rows[..i] + rows[i + 1..]
  }

  /** The answer to "the user's newest method": any of the newest, or none if there are none. */
  ghost predicate IsNewestQuery(rows: seq<Method>, u: UserId, newest: Option<nat>) {
    match newest
    case None => !HasMethods(rows, u)
    case Some(i) =>
      && i < |rows|
      && rows[i].user == u
      && forall m :: m in rows && m.user == u ==> m.createdAt <= rows[i].createdAt
  }

  function Promoted(rows: seq<Method>, newest: Option<nat>): seq<Method> {
    if newest.Some? && newest.value < |rows| then rows[newest.value := rows[newest.value].(isDefault := true)] else rows
  }

  /** `detached` tells whether the provider let go of the card; `newest` answers the promotion query. */
  function Delete(st: State, u: UserId, id: MethodId, detached: bool, newest: Option<nat>): (State, Result<(), Error>) {
    var i := Find(st.rows, u, id);
    if i == |st.rows| then (st, Err(MethodNotFound(id)))
    else if !detached then (st, Err(ProviderError))
    else
      var rest := Without(st.rows, i);
      (st.(rows := if st.rows[i].isDefault then Promoted(rest, newest) else rest), Ok(()))
  }

  function GetDefault(rows: seq<Method>, u: UserId): Option<Method> {
    if rows == [] then None
    else if rows[0].user == u && rows[0].isDefault then Some(rows[0])
    else GetDefault(rows[1..], u)
  }

  // ------------------------------------------------------------------- runs

  datatype Op = SaveOp(user: UserId, wantsDefault: bool, saved: Option<Token>, now: Time)
              | SetDefaultOp(user: UserId, id: MethodId)
              | DeleteOp(user: UserId, id: MethodId, detached: bool, newest: Option<nat>)

  function Step(st: State, op: Op): State {
    match op
    case SaveOp(u, wantsDefault, saved, now) => Save(st, u, wantsDefault, saved, now).0
    case SetDefaultOp(u, id) => SetDefault(st, u, id).0
    case DeleteOp(u, id, detached, newest) => Delete(st, u, id, detached, newest).0
  }

  /** A promotion query is answered truly. */
  ghost predicate Legal(st: State, op: Op) {
    op.DeleteOp? ==>
      var i := Find(st.rows, op.user, op.id);
      i < |st.rows| && op.detached && st.rows[i].isDefault ==> IsNewestQuery(Without(st.rows, i), op.user, op.newest)
  }

  function Run(st: State, ops: seq<Op>): State
    decreases |ops|
  {
    if ops == [] then st else Run(Step(st, ops[0]), ops[1..])
  }

  ghost predicate LegalRun(st: State, ops: seq<Op>)
    decreases |ops|
  {
    ops == [] || (Legal(st, ops[0]) && LegalRun(Step(st, ops[0]), ops[1..]))
  }

  // ------------------------------------------------------------------- invariant

  predicate IsDefaultOf(m: Method, u: UserId) {
    m.user == u && m.isDefault
  }

  ghost predicate AtMostOneDefault(rows: seq<Method>, u: UserId) {
    forall i, j :: 0 <= i < j < |rows| ==> !(IsDefaultOf(rows[i], u) && IsDefaultOf(rows[j], u))
  }

  ghost predicate HasDefault(rows: seq<Method>, u: UserId) {
    exists m :: m in rows && IsDefaultOf(m, u)
  }

  /** One default if there are methods; with no methods there is nothing to be the default. */
  ghost predicate ExactlyOneDefault(rows: seq<Method>, u: UserId) {
    AtMostOneDefault(rows, u) && (HasMethods(rows, u) ==> HasDefault(rows, u))
  }

  ghost predicate DistinctIds(st: State) {
    && (forall m :: m in st.rows ==> m.id < st.nextId)
    && (forall i, j :: 0 <= i < j < |st.rows| ==> st.rows[i].id != st.rows[j].id)
  }

  ghost predicate Inv(st: State) {
    DistinctIds(st) && forall u :: ExactlyOneDefault(st.rows, u)
  }

  lemma ClearedHasNoDefault(rows: seq<Method>, u: UserId)
    ensures forall m :: m in ClearDefault(rows, u) ==> !IsDefaultOf(m, u)
  {
  }

  lemma ClearingLeavesOthers(rows: seq<Method>, u: UserId, v: UserId)
    requires u != v && ExactlyOneDefault(rows, v)
    ensures ExactlyOneDefault(ClearDefault(rows, u), v)
  {
    var cleared := ClearDefault(rows, u);
    if HasMethods(cleared, v) {
      var k :| 0 <= k < |cleared| && cleared[k].user == v;
      assert rows[k] in rows;
      var m :| m in rows && IsDefaultOf(m, v);
      var d :| 0 <= d < |rows| && rows[d] == m;
      assert cleared[d] == m;
    }
  }

  lemma SaveKeepsDefaults(st: State, u: UserId, wantsDefault: bool, saved: Option<Token>, now: Time, v: UserId)
    requires ExactlyOneDefault(st.rows, v)
    ensures ExactlyOneDefault(Save(st, u, wantsDefault, saved, now).0.rows, v)
  {
    var after := Save(st, u, wantsDefault, saved, now).0.rows;
    if saved.Some? {
      var makeDefault := wantsDefault || !HasMethods(st.rows, u);
      var before := if makeDefault then ClearDefault(st.rows, u) else st.rows;
      var m := after[|st.rows|];
      assert after == before + [m];
      if v != u {
        if makeDefault {
          ClearingLeavesOthers(st.rows, u, v);
        }
        AppendKeepsDefaults(before, m, v);
      } else if makeDefault {
        ClearedHasNoDefault(st.rows, u);
        assert m in after;
      } else {
        AppendKeepsDefaults(before, m, v);
      }
    }
  }

  lemma AppendKeepsDefaults(rows: seq<Method>, m: Method, v: UserId)
    requires ExactlyOneDefault(rows, v)
    requires m.user == v ==> !m.isDefault && HasMethods(rows, v)
    ensures ExactlyOneDefault(rows + [m], v)
  {
    if HasMethods(rows + [m], v) {
      assert HasMethods(rows, v);
      var d :| d in rows && IsDefaultOf(d, v);
      assert d in rows + [m];
    }
  }

  lemma SetDefaultKeepsDefaults(st: State, u: UserId, id: MethodId, v: UserId)
    requires ExactlyOneDefault(st.rows, v)
    ensures ExactlyOneDefault(SetDefault(st, u, id).0.rows, v)
  {
    var i := Find(st.rows, u, id);
    if i < |st.rows| {
      var cleared, after := ClearDefault(st.rows, u), SetDefault(st, u, id).0.rows;
      if v != u {
        ClearingLeavesOthers(st.rows, u, v);
        ReplaceLeavesOthers(cleared, i, after[i], v);
      } else {
        ClearedHasNoDefault(st.rows, u);
        assert after[i] in after;
        forall j, k | 0 <= j < k < |after|
          ensures !(IsDefaultOf(after[j], v) && IsDefaultOf(after[k], v))
        {
          assert j != i ==> after[j] == cleared[j] && cleared[j] in cleared;
          assert k != i ==> after[k] == cleared[k] && cleared[k] in cleared;
        }
      }
    }
  }

  /** Rewriting a row of one user does not move another user's default. */
  lemma ReplaceLeavesOthers(rows: seq<Method>, i: nat, m: Method, v: UserId)
    requires i < |rows| && rows[i].user != v && m.user != v && ExactlyOneDefault(rows, v)
    ensures ExactlyOneDefault(rows[i := m], v)
  {
    var after := rows[i := m];
    if HasMethods(after, v) {
      var k :| 0 <= k < |after| && after[k].user == v;
      assert rows[k] in rows;
      var d :| 0 <= d < |rows| && IsDefaultOf(rows[d], v);
      assert after[d] in after;
    }
  }

  lemma WithoutAt(rows: seq<Method>, i: nat, k: nat)
    requires i < |rows| && k < |rows| - 1
    ensures Without(rows, i)[k] == rows[if k < i then k else k + 1]
  {
  }

  /** Removing a row that is not the default leaves one default. */
  lemma RemovalKeepsDefaults(rows: seq<Method>, i: nat, v: UserId)
    requires i < |rows| && ExactlyOneDefault(rows, v) && !IsDefaultOf(rows[i], v)
    ensures ExactlyOneDefault(Without(rows, i), v)
  {
    var rest := Without(rows, i);
    RemovalKeepsAtMostOne(rows, i, v);
    if HasMethods(rest, v) {
      var m :| m in rest && m.user == v;
      assert m in rows;
      var d :| 0 <= d < |rows| && IsDefaultOf(rows[d], v);
      assert rest[if d < i then d else d - 1] == rows[d];
    }
  }

  lemma RemovalKeepsAtMostOne(rows: seq<Method>, i: nat, v: UserId)
    requires i < |rows| && AtMostOneDefault(rows, v)
    ensures AtMostOneDefault(Without(rows, i), v)
    ensures IsDefaultOf(rows[i], v) ==> forall m :: m in Without(rows, i) ==> !IsDefaultOf(m, v)
  {
    var rest := Without(rows, i);
    forall j, k | 0 <= j < k < |rest|
      ensures !(IsDefaultOf(rest[j], v) && IsDefaultOf(rest[k], v))
    {
      WithoutAt(rows, i, j);
      WithoutAt(rows, i, k);
    }
    forall m | m in rest
      ensures IsDefaultOf(rows[i], v) ==> !IsDefaultOf(m, v)
    {
      var k :| 0 <= k < |rest| && rest[k] == m;
      WithoutAt(rows, i, k);
    }
  }

  lemma DeleteKeepsDefaults(st: State, u: UserId, id: MethodId, detached: bool, newest: Option<nat>, v: UserId)
    requires ExactlyOneDefault(st.rows, v) && Legal(st, DeleteOp(u, id, detached, newest))
    ensures ExactlyOneDefault(Delete(st, u, id, detached, newest).0.rows, v)
  {
    var i := Find(st.rows, u, id);
    if i < |st.rows| && detached {
      var rest := Without(st.rows, i);
      if !st.rows[i].isDefault {
        RemovalKeepsDefaults(st.rows, i, v);
      } else if v != u {
        RemovalKeepsDefaults(st.rows, i, v);
        if newest.Some? {
          ReplaceLeavesOthers(rest, newest.value, rest[newest.value].(isDefault := true), v);
        }
      } else {
        RemovalKeepsAtMostOne(st.rows, i, v);
        PromotionMakesOne(rest, newest, v);
      }
    }
  }

  lemma PromotionMakesOne(rest: seq<Method>, newest: Option<nat>, u: UserId)
    requires IsNewestQuery(rest, u, newest) && forall m :: m in rest ==> !IsDefaultOf(m, u)
    ensures ExactlyOneDefault(Promoted(rest, newest), u)
  {
    var after := Promoted(rest, newest);
    if newest.Some? {
      assert after[newest.value] in after;
      forall j, k | 0 <= j < k < |after|
        ensures !(IsDefaultOf(after[j], u) && IsDefaultOf(after[k], u))
      {
        assert j != newest.value ==> after[j] in rest;
        assert k != newest.value ==> after[k] in rest;
      }
    }
  }

  lemma SameIds(a: State, b: State)
    requires DistinctIds(a) && |a.rows| == |b.rows| && a.nextId == b.nextId
    requires forall i :: 0 <= i < |a.rows| ==> b.rows[i].id == a.rows[i].id
    ensures DistinctIds(b)
  {
    forall m | m in b.rows
      ensures m.id < b.nextId
    {
      var i :| 0 <= i < |b.rows| && b.rows[i] == m;
      assert a.rows[i] in a.rows;
    }
  }

  lemma AppendKeepsIds(st: State, m: Method)
    requires DistinctIds(st) && m.id == st.nextId
    ensures DistinctIds(State(st.rows + [m], st.nextId + 1))
  {
    assert forall i :: 0 <= i < |st.rows| ==> st.rows[i] in st.rows;
  }

  lemma SaveKeepsIds(st: State, u: UserId, wantsDefault: bool, saved: Option<Token>, now: Time)
    requires DistinctIds(st)
    ensures DistinctIds(Save(st, u, wantsDefault, saved, now).0)
  {
    if saved.Some? {
      var after := Save(st, u, wantsDefault, saved, now).0.rows;
      var m, before := after[|st.rows|], after[..|st.rows|];
      SameIds(st, st.(rows := before));
      AppendKeepsIds(st.(rows := before), m);
      assert after == before + [m];
    }
  }

  lemma DeleteKeepsIds(st: State, u: UserId, id: MethodId, detached: bool, newest: Option<nat>)
    requires DistinctIds(st)
    ensures DistinctIds(Delete(st, u, id, detached, newest).0)
  {
    var i := Find(st.rows, u, id);
    if i < |st.rows| && detached {
      RemovalKeepsIds(st, i);
      SameIds(st.(rows := Without(st.rows, i)), Delete(st, u, id, detached, newest).0);
    }
  }

  lemma StepKeepsIds(st: State, op: Op)
    requires DistinctIds(st)
    ensures DistinctIds(Step(st, op))
  {
    match op
    case SaveOp(u, wantsDefault, saved, now) => SaveKeepsIds(st, u, wantsDefault, saved, now);
    case SetDefaultOp(u, id) => SameIds(st, Step(st, op));
    case DeleteOp(u, id, detached, newest) => DeleteKeepsIds(st, u, id, detached, newest);
  }

  lemma RemovalKeepsIds(st: State, i: nat)
    requires i < |st.rows| && DistinctIds(st)
    ensures DistinctIds(st.(rows := Without(st.rows, i)))
  {
    var rest := Without(st.rows, i);
    forall j, k | 0 <= j < k < |rest|
      ensures rest[j].id != rest[k].id
    {
      WithoutAt(st.rows, i, j);
      WithoutAt(st.rows, i, k);
    }
  }

  lemma StepKeepsInv(st: State, op: Op)
    requires Inv(st) && Legal(st, op)
    ensures Inv(Step(st, op))
  {
    StepKeepsIds(st, op);
    forall v
      ensures ExactlyOneDefault(Step(st, op).rows, v)
    {
      assert ExactlyOneDefault(st.rows, v);
      match op
      case SaveOp(u, wantsDefault, saved, now) => SaveKeepsDefaults(st, u, wantsDefault, saved, now, v);
      case SetDefaultOp(u, id) => SetDefaultKeepsDefaults(st, u, id, v);
      case DeleteOp(u, id, detached, newest) => DeleteKeepsDefaults(st, u, id, detached, newest, v);
    }
  }

  lemma {:induction false} RunKeepsInv(st: State, ops: seq<Op>)
    requires Inv(st) && LegalRun(st, ops)
    ensures Inv(Run(st, ops))
    decreases |ops|
  {
    if ops != [] {
      StepKeepsInv(st, ops[0]);
      RunKeepsInv(Step(st, ops[0]), ops[1..]);
    }
  }

  /** After any sequence of calls, a user with a method has one default method and only one. */
  lemma OneDefaultAlways(ops: seq<Op>, u: UserId)
    requires LegalRun(EMPTY_STATE, ops)
    ensures var rows := Run(EMPTY_STATE, ops).rows;
            && (forall i, j :: 0 <= i < j < |rows| ==>
                  !(rows[i].user == rows[j].user == u && rows[i].isDefault && rows[j].isDefault))
            && ((exists m :: m in rows && m.user == u) ==> exists m :: m in rows && m.user == u && m.isDefault)
  {
    RunKeepsInv(EMPTY_STATE, ops);
    var rows := Run(EMPTY_STATE, ops).rows;
    assert ExactlyOneDefault(rows, u);
    forall i, j | 0 <= i < j < |rows|
      ensures !(rows[i].user == rows[j].user == u && rows[i].isDefault && rows[j].isDefault)
    {
      assert !(IsDefaultOf(rows[i], u) && IsDefaultOf(rows[j], u));
    }
    if m :| m in rows && m.user == u {
      var d :| d in rows && IsDefaultOf(d, u);
      assert d in rows && d.user == u && d.isDefault;
    }
  }

  // ------------------------------------------------------------------- other users

  /** A user's own methods, in table order. */
  function MethodsOf(rows: seq<Method>, u: UserId): seq<Method> {
    if rows == [] then [] else (if rows[0].user == u then [rows[0]] else []) + MethodsOf(rows[1..], u)
  }

  lemma {:induction false} MethodsOfConcat(a: seq<Method>, b: seq<Method>, u: UserId)
    ensures MethodsOf(a + b, u) == MethodsOf(a, u) + MethodsOf(b, u)
  {
    if a == [] {
      assert a + b == b;
    } else {
      var first, rest := if a[0].user == u then [a[0]] else [], MethodsOf(a[1..], u);
      assert (a + b)[0] == a[0] && (a + b)[1..] == a[1..] + b;
      MethodsOfConcat(a[1..], b, u);
      assert first + (rest + MethodsOf(b, u)) == (first + rest) + MethodsOf(b, u);
    }
  }

  /** Tables that differ only in rows of other users hold the same methods of this one. */
  lemma {:induction false} SameMethods(a: seq<Method>, b: seq<Method>, u: UserId)
    requires |a| == |b|
    requires forall i :: 0 <= i < |a| ==> a[i] == b[i] || (a[i].user != u && b[i].user != u)
    ensures MethodsOf(a, u) == MethodsOf(b, u)
  {
    if a != [] {
      SameMethods(a[1..], b[1..], u);
    }
  }

  lemma WithoutOthers(rows: seq<Method>, i: nat, u: UserId)
    requires i < |rows| && rows[i].user != u
    ensures MethodsOf(Without(rows, i), u) == MethodsOf(rows, u)
  {
    assert rows == rows[..i] + ([rows[i]] + rows[i + 1..]);
    MethodsOfConcat(rows[..i], [rows[i]] + rows[i + 1..], u);
    MethodsOfConcat([rows[i]], rows[i + 1..], u);
    MethodsOfConcat(rows[..i], rows[i + 1..], u);
    assert MethodsOf([rows[i]], u) == [];
  }

  /** No call by one user changes, adds or removes a method of another. */
  lemma OthersUntouched(st: State, op: Op, v: UserId)
    requires Legal(st, op) && op.user != v
    ensures MethodsOf(Step(st, op).rows, v) == MethodsOf(st.rows, v)
  {
    var after := Step(st, op).rows;
    match op
    case SaveOp(u, wantsDefault, saved, now) =>
      if saved.Some? {
        var m := after[|st.rows|];
        assert after == after[..|st.rows|] + [m];
        MethodsOfConcat(after[..|st.rows|], [m], v);
        SameMethods(after[..|st.rows|], st.rows, v);
        assert MethodsOf([m], v) == [];
      }
    case SetDefaultOp(u, id) =>
      SameMethods(after, st.rows, v);
    case DeleteOp(u, id, detached, newest) =>
      var i := Find(st.rows, u, id);
      if i < |st.rows| && detached {
        WithoutOthers(st.rows, i, v);
        SameMethods(after, Without(st.rows, i), v);
      }
  }

  // ------------------------------------------------------------------- what the default is

  lemma {:induction false} GetDefaultFinds(rows: seq<Method>, u: UserId)
    ensures GetDefault(rows, u).Some? <==> HasDefault(rows, u)
    ensures GetDefault(rows, u).Some? ==> GetDefault(rows, u).value in rows && IsDefaultOf(GetDefault(rows, u).value, u)
  {
    if rows != [] {
      GetDefaultFinds(rows[1..], u);
      assert rows[0] in rows;
      assert forall m :: m in rows[1..] ==> m in rows;
      if m :| m in rows && IsDefaultOf(m, u) {
        assert m == rows[0] || m in rows[1..];
      }
    }
  }

  lemma DefaultIsUnique(rows: seq<Method>, u: UserId, m: Method)
    requires AtMostOneDefault(rows, u) && m in rows && IsDefaultOf(m, u)
    ensures GetDefault(rows, u) == Some(m)
  {
    GetDefaultFinds(rows, u);
    var d := GetDefault(rows, u).value;
    var i :| 0 <= i < |rows| && rows[i] == m;
    var j :| 0 <= j < |rows| && rows[j] == d;
    if i < j {
      assert !(IsDefaultOf(rows[i], u) && IsDefaultOf(rows[j], u));
    } else if j < i {
      assert !(IsDefaultOf(rows[j], u) && IsDefaultOf(rows[i], u));
    }
  }

  /** Setting a default is obeyed: the fallback for a payment is that method, and other fields stay. */
  lemma SetDefaultIsObeyed(st: State, u: UserId, id: MethodId)
    requires Inv(st) && Find(st.rows, u, id) < |st.rows|
    ensures var st' := SetDefault(st, u, id).0;
            GetDefault(st'.rows, u) == Some(st.rows[Find(st.rows, u, id)].(isDefault := true))
            && forall i :: 0 <= i < |st.rows| ==> st'.rows[i].(isDefault := st.rows[i].isDefault) == st.rows[i]
  {
    var i := Find(st.rows, u, id);
    var rows := SetDefault(st, u, id).0.rows;
    assert ExactlyOneDefault(st.rows, u);
    SetDefaultKeepsDefaults(st, u, id, u);
    assert rows[i] in rows;
    DefaultIsUnique(rows, u, rows[i]);
  }

  /** Deleting the default promotes one of the newest methods left; deleting another keeps the default. */
  lemma DeletePromotesNewest(st: State, u: UserId, id: MethodId, newest: Option<nat>)
    requires Inv(st) && Find(st.rows, u, id) < |st.rows| && Legal(st, DeleteOp(u, id, true, newest))
    ensures var i := Find(st.rows, u, id);
            var after := Delete(st, u, id, true, newest).0.rows;
            var fallback := GetDefault(after, u);
            && (!st.rows[i].isDefault ==> fallback == GetDefault(st.rows, u))
            && (st.rows[i].isDefault && fallback.None? ==> !HasMethods(after, u))
            && (st.rows[i].isDefault && fallback.Some? ==>
                  forall m :: m in after && m.user == u ==> m.createdAt <= fallback.value.createdAt)
  {
    var i := Find(st.rows, u, id);
    var rest, after := Without(st.rows, i), Delete(st, u, id, true, newest).0.rows;
    assert ExactlyOneDefault(st.rows, u);
    DeleteKeepsDefaults(st, u, id, true, newest, u);
    if !st.rows[i].isDefault {
      KeepsItsDefault(st.rows, i, u);
    } else if newest.Some? {
      assert after[newest.value] in after;
      DefaultIsUnique(after, u, after[newest.value]);
      forall m | m in after && m.user == u
        ensures m.createdAt <= after[newest.value].createdAt
      {
        var k :| 0 <= k < |after| && after[k] == m;
        assert rest[k] in rest;
      }
    } else {
      GetDefaultFinds(after, u);
    }
  }

  lemma KeepsItsDefault(rows: seq<Method>, i: nat, u: UserId)
    requires i < |rows| && rows[i].user == u && !rows[i].isDefault && ExactlyOneDefault(rows, u)
    ensures GetDefault(Without(rows, i), u) == GetDefault(rows, u)
  {
    assert rows[i] in rows;
    var d :| 0 <= d < |rows| && IsDefaultOf(rows[d], u);
    var rest := Without(rows, i);
    RemovalKeepsAtMostOne(rows, i, u);
    assert rest[if d < i then d else d - 1] == rows[d];
    DefaultIsUnique(rest, u, rows[d]);
    DefaultIsUnique(rows, u, rows[d]);
  }

  // ------------------------------------------------------------------- saving and deleting again

  lemma FindIs(rows: seq<Method>, u: UserId, id: MethodId, i: nat)
    requires i < |rows| && Owned(rows[i], u, id)
    requires forall k :: 0 <= k < i ==> !Owned(rows[k], u, id)
    ensures Find(rows, u, id) == i
  {
  }

  lemma LastRemoved(rows: seq<Method>, m: Method)
    requires forall k :: 0 <= k < |rows| ==> rows[k].id != m.id
    ensures Find(rows + [m], m.user, m.id) == |rows| && Without(rows + [m], |rows|) == rows
  {
    FindIs(rows + [m], m.user, m.id, |rows|);
  }

  /** Deleting what was just saved leaves the rows as the saving had changed them, with one promoted if it was the default. */
  lemma SaveThenDelete(st: State, u: UserId, wantsDefault: bool, token: Token, now: Time, newest: Option<nat>)
    requires DistinctIds(st)
    requires Legal(Save(st, u, wantsDefault, Some(token), now).0, DeleteOp(u, st.nextId, true, newest))
    ensures var after := Delete(Save(st, u, wantsDefault, Some(token), now).0, u, st.nextId, true, newest).0.rows;
            if wantsDefault || !HasMethods(st.rows, u)
            then after == Promoted(ClearDefault(st.rows, u), newest) && IsNewestQuery(ClearDefault(st.rows, u), u, newest)
            else after == st.rows
  {
    var makeDefault := wantsDefault || !HasMethods(st.rows, u);
    var before := if makeDefault then ClearDefault(st.rows, u) else st.rows;
    var m := Method(st.nextId, u, token, makeDefault, now);
    assert Save(st, u, wantsDefault, Some(token), now).0.rows == before + [m];
    assert forall k :: 0 <= k < |before| ==> before[k].id == st.rows[k].id && st.rows[k] in st.rows;
    LastRemoved(before, m);
  }

  /**
    Saving a method and deleting it gives the table back unless it took the default away from an
    older one; then it does exactly when that one is chosen again as the newest.
   */
  lemma DeleteUndoesSaveIff(st: State, u: UserId, wantsDefault: bool, token: Token, now: Time, newest: Option<nat>)
    requires Inv(st)
    requires Legal(Save(st, u, wantsDefault, Some(token), now).0, DeleteOp(u, st.nextId, true, newest))
    ensures var saved := Save(st, u, wantsDefault, Some(token), now).0;
            Delete(saved, u, st.nextId, true, newest).0.rows == st.rows
            <==> !wantsDefault || !HasMethods(st.rows, u)
                 || (newest.Some? && newest.value < |st.rows| && st.rows[newest.value].isDefault)
  {
    SaveThenDelete(st, u, wantsDefault, token, now, newest);
    assert ExactlyOneDefault(st.rows, u);
    if wantsDefault || !HasMethods(st.rows, u) {
      ClearThenPromote(st.rows, u, newest);
    }
  }

  lemma ClearThenPromote(rows: seq<Method>, u: UserId, newest: Option<nat>)
    requires ExactlyOneDefault(rows, u) && IsNewestQuery(ClearDefault(rows, u), u, newest)
    ensures Promoted(ClearDefault(rows, u), newest) == rows <==>
            !HasMethods(rows, u) || (newest.Some? && newest.value < |rows| && rows[newest.value].isDefault)
  {
    var cleared := ClearDefault(rows, u);
    var back := Promoted(cleared, newest);
    if !HasMethods(rows, u) {
      assert forall k :: 0 <= k < |rows| ==> rows[k] in rows && cleared[k] == rows[k];
      assert newest.None?;
    } else {
      var d :| 0 <= d < |rows| && IsDefaultOf(rows[d], u);
      assert cleared[d] in cleared;
      assert newest.Some?;
      var n := newest.value;
      assert rows[n].user == u && back[n].isDefault;
      if rows[n].isDefault {
        assert forall k :: 0 <= k < |rows| && k != n ==> !IsDefaultOf(rows[k], u);
        assert forall k :: 0 <= k < |rows| ==> back[k] == rows[k];
      }
    }
  }

  // ------------------------------------------------------------------- listing

  predicate ListedBefore(a: Method, b: Method) {
    if a.isDefault != b.isDefault then a.isDefault else a.createdAt >= b.createdAt
  }

  /** A listing is the user's methods, the default first and then the newest. */
  ghost predicate IsListing(rows: seq<Method>, u: UserId, listed: seq<Method>) {
    && multiset(listed) == multiset(MethodsOf(rows, u))
    && forall i, j :: 0 <= i < j < |listed| ==> ListedBefore(listed[i], listed[j])
  }

  lemma {:induction false} MethodsOfMember(rows: seq<Method>, u: UserId, m: Method)
    ensures m in MethodsOf(rows, u) <==> m in rows && m.user == u
  {
    if rows != [] {
      MethodsOfMember(rows[1..], u, m);
      assert m in rows <==> m == rows[0] || m in rows[1..];
    }
  }

  /** The first listed method is the one a payment falls back on. */
  lemma FirstListedIsDefault(st: State, u: UserId, listed: seq<Method>)
    requires Inv(st) && IsListing(st.rows, u, listed)
    ensures GetDefault(st.rows, u) == if listed == [] then None else Some(listed[0])
  {
    assert ExactlyOneDefault(st.rows, u);
    assert forall m :: m in listed <==> m in multiset(listed);
    GetDefaultFinds(st.rows, u);
    if listed == [] {
      assert |multiset(MethodsOf(st.rows, u))| == |MethodsOf(st.rows, u)|;
      forall m | m in st.rows
        ensures !IsDefaultOf(m, u)
      {
        MethodsOfMember(st.rows, u, m);
      }
    } else {
      var first := listed[0];
      assert first in multiset(MethodsOf(st.rows, u));
      MethodsOfMember(st.rows, u, first);
      var d :| d in st.rows && IsDefaultOf(d, u);
      MethodsOfMember(st.rows, u, d);
      assert d in multiset(listed);
      var k :| 0 <= k < |listed| && listed[k] == d;
      assert k > 0 ==> ListedBefore(listed[0], listed[k]);
      DefaultIsUnique(st.rows, u, first);
    }
  }
}
