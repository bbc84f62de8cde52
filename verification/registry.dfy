/** The `users` object of `server.js`: a name-keyed table of user records
    whose insertion order is the order `Object.values(users)` lists them
    in. It is modelled as a sequence of own properties, oldest first. */
module Registry {
  import opened Wrappers
  import opened Protocol

  /** One own property of the `users` object: its key and its value. */
  datatype Entry = Entry(key: string, user: User)

  type Users = seq<Entry>

  /** The keys of the table, in insertion order. */
  function Keys(users: Users): (ks: seq<string>)
    ensures |ks| == |users|
    ensures forall i :: 0 <= i < |users| ==> ks[i] == users[i].key
  {
    if users == [] then [] else [users[0].key] + Keys(users[1..])
  }

  /** `Object.values(users)`: the records, in insertion order. */
  function Values(users: Users): (vs: seq<User>)
    ensures |vs| == |users|
    ensures forall i :: 0 <= i < |users| ==> vs[i] == users[i].user
  {
    if users == [] then [] else [users[0].user] + Values(users[1..])
  }

  /** `k` is an own key of the table. */
  predicate Has(users: Users, k: string)
  {
    users != [] && (users[0].key == k || Has(users[1..], k))
  }

  /** `Has` holds exactly when some position carries the key. */
  lemma {:induction false} HasAt(users: Users, k: string)
    ensures Has(users, k) <==> exists i :: 0 <= i < |users| && users[i].key == k
  {
    if users != [] {
      HasAt(users[1..], k);
      if Has(users[1..], k) {
        var j :| 0 <= j < |users[1..]| && users[1..][j].key == k;
        assert users[j + 1].key == k;
      }
      if exists i :: 0 <= i < |users| && users[i].key == k {
        var i :| 0 <= i < |users| && users[i].key == k;
        if i > 0 {
          assert users[1..][i - 1].key == k;
        }
      }
    }
  }

  /** The record stored under `k`, if any. */
  function Lookup(users: Users, k: string): Option<User>
  {
    if users == [] then None
    else if users[0].key == k then Some(users[0].user)
    else Lookup(users[1..], k)
  }

  /** Keys are unique (they are object property names), every record's
      `name` is its own key, and no key is empty. */
  predicate WellFormed(users: Users)
  {
    && (forall i, j :: 0 <= i < j < |users| ==> users[i].key != users[j].key)
    && (forall i :: 0 <= i < |users| ==> users[i].user.name == users[i].key && users[i].key != "")
  }

  /** Property assignment `users[k] = u`: an existing key keeps its place
      and gets the new value; a new key goes last. */
  function Put(users: Users, k: string, u: User): (r: Users)
    ensures !Has(users, k) ==> r == users + [Entry(k, u)]
    ensures Has(users, k) ==> Keys(r) == Keys(users)
    ensures Lookup(r, k) == Some(u)
  {
    if users == [] then [Entry(k, u)]
    else if users[0].key == k then [Entry(k, u)] + users[1..]
    else [users[0]] + Put(users[1..], k, u)
  }

  /** Property deletion `delete users[k]`: the entry for `k` disappears and
      nothing else moves; deleting an absent key changes nothing. */
  function Delete(users: Users, k: string): (r: Users)
    ensures forall x :: Has(r, x) <==> Has(users, x) && x != k
  {
    if users == [] then []
    else if users[0].key == k then Delete(users[1..], k)
    else
      var rest := Delete(users[1..], k);
      assert ([users[0]] + rest)[1..] == rest;
      [users[0]] + rest
  }

  /** Deleting a key that is not there changes nothing. */
  lemma {:induction false} DeleteAbsent(users: Users, k: string)
    requires !Has(users, k)
    ensures Delete(users, k) == users
  {
    if users != [] {
      DeleteAbsent(users[1..], k);
    }
  }

  /** Deletion keeps a table well formed. */
  lemma {:induction false} DeleteWellFormed(users: Users, k: string)
    requires WellFormed(users)
    ensures WellFormed(Delete(users, k))
  {
    if users != [] {
      DeleteWellFormed(users[1..], k);
      if users[0].key != k {
        var rest := Delete(users[1..], k);
        var r := [users[0]] + rest;
        assert !Has(users[1..], users[0].key) by {
          HasAt(users[1..], users[0].key);
        }
        assert !Has(rest, users[0].key);
        HasAt(rest, users[0].key);
        forall i, j | 0 <= i < j < |r|
          ensures r[i].key != r[j].key
        {
          if i == 0 {
            assert r[j] == rest[j - 1];
          } else {
            assert r[i] == rest[i - 1] && r[j] == rest[j - 1];
          }
        }
      }
    }
  }

  /** In a well-formed table, deleting the key at position `i` is exactly
      cutting out that one entry: all others keep their relative order. */
  lemma {:induction false} DeleteCutsOneEntry(users: Users, k: string, i: nat)
    requires WellFormed(users)
    requires i < |users| && users[i].key == k
    ensures Delete(users, k) == users[..i] + users[i + 1..]
    ensures |Delete(users, k)| == |users| - 1
  {
    if i == 0 {
      assert !Has(users[1..], k) by {
        HasAt(users[1..], k);
      }
      DeleteAbsent(users[1..], k);
    } else {
      DeleteCutsOneEntry(users[1..], k, i - 1);
      assert users[1..][..i - 1] == users[1..i];
      assert users[1..][i - 1 + 1..] == users[i + 1..];
      assert [users[0]] + users[1..i] == users[..i];
    }
  }

  /** Appending an entry adds exactly its key. */
  lemma {:induction false} HasAppend(users: Users, e: Entry, x: string)
    ensures Has(users + [e], x) <==> Has(users, x) || x == e.key
  {
    if users != [] {
      assert (users + [e])[1..] == users[1..] + [e];
      HasAppend(users[1..], e, x);
    } else {
      assert ([] + [e])[1..] == [];
    }
  }

  /** Adding a fresh, non-empty name with the record `{name}` keeps the
      table well formed and makes that name the last key. */
  lemma AppendFresh(users: Users, n: string)
    requires WellFormed(users) && !Has(users, n) && n != ""
    ensures WellFormed(users + [Entry(n, User(n))])
    ensures Keys(users + [Entry(n, User(n))]) == Keys(users) + [n]
    ensures forall x :: Has(users + [Entry(n, User(n))], x) <==> Has(users, x) || x == n
  {
    var r := users + [Entry(n, User(n))];
    assert Keys(r) == Keys(users) + [n];
    HasAt(users, n);
    forall x
      ensures Has(r, x) <==> Has(users, x) || x == n
    {
      HasAppend(users, Entry(n, User(n)), x);
    }
  }

  /** In a well-formed table the snapshot lists exactly the keys, in order. */
  lemma SnapshotNamesAreKeys(users: Users)
    requires WellFormed(users)
    ensures forall i :: 0 <= i < |users| ==> Values(users)[i].name == Keys(users)[i]
  {
  }
}
