/** The saved-method service as it runs, moving the default flag in place. */
module PaymentMethodStore {
  import opened Wrappers
  import opened PaymentMethods

  class Store {
    var rows: seq<Method>
    var nextId: MethodId

    ghost function Snapshot(): State
      reads this
    {
      State(rows, nextId)
    }

    constructor ()
      ensures Snapshot() == EMPTY_STATE
    {
      rows, nextId := [], 0;
    }

    method AnyMethod(u: UserId) returns (found: bool)
      ensures found == HasMethods(rows, u)
    {
      for i := 0 to |rows|
        invariant forall k :: 0 <= k < i ==> rows[k].user != u
      {
        if rows[i].user == u {
          return true;
        }
      }
      found := false;
    }

    /** Unsets whatever default the user has. */
    method ClearDefaults(u: UserId)
      modifies this`rows
      ensures rows == ClearDefault(old(rows), u)
    {
      ghost var before := rows;
      for i := 0 to |rows|
        invariant |rows| == |before|
        invariant forall k :: 0 <= k < i ==> rows[k] == Cleared(before[k], u)
        invariant forall k :: i <= k < |rows| ==> rows[k] == before[k]
      {
        if rows[i].user == u && rows[i].isDefault {
          rows := rows[i := rows[i].(isDefault := false)];
        }
      }
    }

    method RequireOwned(u: UserId, id: MethodId) returns (i: nat)
      ensures i == Find(rows, u, id)
    {
      i := 0;
      while i < |rows| && !(rows[i].id == id && rows[i].user == u)
        invariant i <= |rows| && forall k :: 0 <= k < i ==> !Owned(rows[k], u, id)
      {
        i := i + 1;
      }
    }

    /** The user's most recent method, the first of several with one time. */
    method Newest(u: UserId) returns (newest: Option<nat>)
      ensures IsNewestQuery(rows, u, newest)
    {
      newest := None;
      for i := 0 to |rows|
        invariant newest.None? ==> forall k :: 0 <= k < i ==> rows[k].user != u
        invariant newest.Some? ==>
            && newest.value < i && rows[newest.value].user == u
            && forall k :: 0 <= k < i && rows[k].user == u ==> rows[k].createdAt <= rows[newest.value].createdAt
      {
        if rows[i].user == u && (newest.None? || rows[newest.value].createdAt < rows[i].createdAt) {
          newest := Some(i);
        }
      }
    }

    method SaveMethod(u: UserId, wantsDefault: bool, saved: Option<Token>, now: Time)
      returns (result: Result<Method, Error>)
      modifies this
      ensures (Snapshot(), result) == Save(old(Snapshot()), u, wantsDefault, saved, now)
    {
      if saved.None? {
        return Err(ProviderError);
      }
      var makeDefault := wantsDefault;
      if !makeDefault {
        var existing := AnyMethod(u);
        makeDefault := !existing;
      }
      if makeDefault {
        ClearDefaults(u);
      }
      var m := Method(nextId, u, saved.value, makeDefault, now);
      rows, nextId := rows + [m], nextId + 1;
      result := Ok(m);
    }

    method MakeDefault(u: UserId, id: MethodId) returns (result: Result<Method, Error>)
      modifies this
      ensures (Snapshot(), result) == SetDefault(old(Snapshot()), u, id)
    {
      var i := RequireOwned(u, id);
      if i == |rows| {
        return Err(MethodNotFound(id));
      }
      ClearDefaults(u);
      rows := rows[i := rows[i].(isDefault := true)];
      result := Ok(rows[i]);
    }

    /** `detached` is the provider's answer; the promotion looks at the rows left after the removal. */
    method DeleteMethod(u: UserId, id: MethodId,
                        detached: bool) returns (result: Result<(), Error>, ghost newest: Option<nat>)
      modifies this
      ensures Legal(old(Snapshot()), DeleteOp(u, id, detached, newest))
      ensures (Snapshot(), result) == Delete(old(Snapshot()), u, id, detached, newest)
    {
      var i := RequireOwned(u, id);
      if i == |rows| {
        return Err(MethodNotFound(id)), None;
      }
      if !detached {
        return Err(ProviderError), None;
      }
      var wasDefault := rows[i].isDefault;
      rows := rows[..i] + rows[i + 1..];
      newest := None;
      if wasDefault {
        var candidate := Newest(u);
        newest := candidate;
        if candidate.Some? {
          rows := rows[candidate.value := rows[candidate.value].(isDefault := true)];
        }
      }
      result := Ok(());
    }

    method DefaultMethod(u: UserId) returns (m: Option<Method>)
      ensures m == GetDefault(rows, u)
    {
      for i := 0 to |rows|
        invariant GetDefault(rows, u) == GetDefault(rows[i..], u)
      {
        assert rows[i..][1..] == rows[i + 1..];
        if rows[i].user == u && rows[i].isDefault {
          return Some(rows[i]);
        }
      }
      m := None;
    }
  }
}
