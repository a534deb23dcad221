/** What each call of the saved-method service answers and leaves behind, row by row. */
module PaymentMethodOutcomes {
  import opened Wrappers
  import opened PaymentMethods

  ghost predicate OwnsSome(rows: seq<Method>, u: UserId) {
    exists i :: 0 <= i < |rows| && rows[i].user == u
  }

  ghost predicate OwnsThis(rows: seq<Method>, u: UserId, id: MethodId) {
    exists i :: 0 <= i < |rows| && rows[i].user == u && rows[i].id == id
  }

  /** The flag is as said; everything else about the row is as it was. */
  predicate Flagged(before: Method, after: Method, flag: bool) {
    after == Method(before.id, before.user, before.token, flag, before.createdAt)
  }

  /**
    A method is saved if and only if the provider accepts the token. The new row, the last one, holds
    what the provider returned under a new id; it is the default if asked for or the user's first,
    and then the user's others are not; no other row changes.
   */
  lemma SaveOutcome(st: State, u: UserId, wantsDefault: bool, saved: Option<Token>, now: Time)
    requires Inv(st)
    ensures var (r, result) := Save(st, u, wantsDefault, saved, now);
            && (result.Ok? <==> saved.Some?)
            && (result.Err? ==> result == Err(ProviderError) && r == st)
            && (result.Ok? ==>
                  var takesOver := wantsDefault || !OwnsSome(st.rows, u);
                  && |r.rows| == |st.rows| + 1
                  && r.rows[|st.rows|] == Method(st.nextId, u, saved.value, takesOver, now) == result.value
                  && r.nextId == st.nextId + 1
                  && (forall i :: 0 <= i < |st.rows| ==>
                        && st.rows[i].id != st.nextId
                        && Flagged(st.rows[i], r.rows[i],
                                   st.rows[i].isDefault && !(takesOver && st.rows[i].user == u))))
  {
    assert HasMethods(st.rows, u) <==> OwnsSome(st.rows, u) by {
      if OwnsSome(st.rows, u) {
        var i :| 0 <= i < |st.rows| && st.rows[i].user == u;
        assert st.rows[i] in st.rows;
      }
    }
    assert forall i :: 0 <= i < |st.rows| ==> st.rows[i] in st.rows;
  }

  /** A default can be chosen among one's own methods only; it is then the one default among them. */
  lemma MakeDefaultOutcome(st: State, u: UserId, id: MethodId)
    requires Inv(st)
    ensures var (r, result) := SetDefault(st, u, id);
            && (result.Ok? <==> OwnsThis(st.rows, u, id))
            && (result.Err? ==> result == Err(MethodNotFound(id)) && r == st)
            && (result.Ok? ==>
                  && r.nextId == st.nextId && |r.rows| == |st.rows|
                  && (forall i :: 0 <= i < |st.rows| ==>
                        Flagged(st.rows[i], r.rows[i],
                                if st.rows[i].user == u then st.rows[i].id == id else st.rows[i].isDefault))
                  && result.value.id == id && result.value.user == u && result.value in r.rows)
  {
    var i := Find(st.rows, u, id);
    if i < |st.rows| {
      assert st.rows[i].user == u && st.rows[i].id == id;
      assert SetDefault(st, u, id).0.rows[i] in SetDefault(st, u, id).0.rows;
      forall k | 0 <= k < |st.rows| && k != i
        ensures st.rows[k].id != id
      {
        assert k < i ==> st.rows[k].id != st.rows[i].id;
      }
    } else {
      assert forall k :: 0 <= k < |st.rows| ==> !Owned(st.rows[k], u, id);
    }
  }

  /** Row `k` of the table without row `i`. */
  function RowLeft(rows: seq<Method>, i: nat, k: nat): Method
    requires i < |rows| && k < |rows| - 1
  {
    if k < i then rows[k] else rows[k + 1]
  }

  /**
    A deletion succeeds if and only if the method is the caller's and the provider lets go of it. It
    removes that row alone; of the rows left at most one changes, by becoming the default, and only
    if the default was deleted.
   */
  lemma DeleteOutcome(st: State, u: UserId, id: MethodId, detached: bool, newest: Option<nat>) returns (i: nat)
    requires Inv(st) && Legal(st, DeleteOp(u, id, detached, newest))
    ensures var (r, result) := Delete(st, u, id, detached, newest);
            && (result.Ok? <==> OwnsThis(st.rows, u, id) && detached)
            && (result == Err(MethodNotFound(id)) <==> !OwnsThis(st.rows, u, id))
            && (result.Err? ==> r == st)
            && (result.Ok? ==>
                  && i < |st.rows| && st.rows[i].id == id && st.rows[i].user == u
                  && r.nextId == st.nextId && |r.rows| == |st.rows| - 1
                  && forall k :: 0 <= k < |r.rows| ==>
                       Flagged(RowLeft(st.rows, i, k), r.rows[k],
                               RowLeft(st.rows, i, k).isDefault || (st.rows[i].isDefault && newest == Some(k))))
  {
    i := Find(st.rows, u, id);
    if i < |st.rows| {
      assert st.rows[i].user == u && st.rows[i].id == id;
      forall k | 0 <= k < |st.rows| - 1
        ensures Without(st.rows, i)[k] == RowLeft(st.rows, i, k)
      {
        WithoutAt(st.rows, i, k);
      }
    } else {
      assert forall k :: 0 <= k < |st.rows| ==> !Owned(st.rows[k], u, id);
    }
  }
}
