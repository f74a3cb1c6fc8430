/** The deadline-ordered multimap of the alarm engine: entries sorted by key, equal keys in
    insertion order, each entry named by a token (the iterator the engine hands out). */
module AlarmQueue {
  import opened Wrappers

  datatype Entry<A> = Entry(key: int, token: nat, cb: A)

  /** Multimap order: by key, and by age among equal keys (tokens are handed out in order). */
  predicate Before<A>(e: Entry<A>, f: Entry<A>) {
    e.key < f.key || (e.key == f.key && e.token < f.token)
  }

  ghost predicate Chronological<A>(q: seq<Entry<A>>) {
    forall i, j | 0 <= i < j < |q| :: Before(q[i], q[j])
  }

  ghost predicate HasToken<A>(q: seq<Entry<A>>, token: nat) {
    exists e :: e in q && e.token == token
  }

  /** std::multimap::insert: the new entry goes after every entry whose key is not larger. */
  function Insert<A>(q: seq<Entry<A>>, e: Entry<A>): (r: seq<Entry<A>>)
    ensures |r| == |q| + 1
  {
    if q == [] || e.key < q[0].key then [e] + q else [q[0]] + Insert(q[1..], e)
  }

  /** The entry a token points at, if the token is still valid. */
  function Lookup<A>(q: seq<Entry<A>>, token: nat): (r: Option<Entry<A>>)
    ensures r.Some? ==> r.value in q && r.value.token == token
    ensures r.None? ==> !HasToken(q, token)
  {
    if q == [] then None
    else if q[0].token == token then Some(q[0])
    else
      var r := Lookup(q[1..], token);
      assert q == [q[0]] + q[1..];
      r
  }

  /** std::multimap::erase of the entry a token points at. */
  function Erase<A>(q: seq<Entry<A>>, token: nat): (r: seq<Entry<A>>)
    ensures |r| <= |q|
    ensures forall e :: e in r ==> e in q
  {
    if q == [] then []
    else if q[0].token == token then q[1..]
    else [q[0]] + Erase(q[1..], token)
  }

  /** How many leading entries are due, that is have a key that is not after `us`. */
  function DueCount<A>(q: seq<Entry<A>>, us: int): (n: nat)
    ensures n <= |q|
    ensures forall i | 0 <= i < n :: q[i].key <= us
    ensures n < |q| ==> us < q[n].key
  {
    if q == [] || us < q[0].key then 0 else 1 + DueCount(q[1..], us)
  }

  lemma DueIs<A>(q: seq<Entry<A>>, k: nat, us: int)
    requires k <= |q|
    requires forall i | 0 <= i < k :: q[i].key <= us
    requires k < |q| ==> us < q[k].key
    ensures DueCount(q, us) == k
  {
  }

  function Callbacks<A>(q: seq<Entry<A>>): set<A> {
    set e | e in q :: e.cb
  }

  function Tokens<A>(q: seq<Entry<A>>): (r: seq<nat>)
    ensures |r| == |q|
    ensures forall i | 0 <= i < |q| :: r[i] == q[i].token
  {
    if q == [] then [] else [q[0].token] + Tokens(q[1..])
  }

  lemma TakeOneMore<A>(q: seq<Entry<A>>, k: nat)
    requires k < |q|
    ensures q[k..][0] == q[k] && q[k..][1..] == q[k + 1..]
    ensures Callbacks(q[..k + 1]) == Callbacks(q[..k]) + {q[k].cb}
  {
  }

  lemma TokensSplit<A>(q: seq<Entry<A>>, n: nat)
    requires n <= |q|
    ensures Tokens(q) == Tokens(q[..n]) + Tokens(q[n..])
  {
    hide Tokens;
    var front, back := Tokens(q[..n]), Tokens(q[n..]);
    forall i | 0 <= i < |q| ensures Tokens(q)[i] == (front + back)[i] {
      assert q[i] == if i < n then q[..n][i] else q[n..][i - n];
    }
  }

  lemma {:induction false} InsertMembers<A>(q: seq<Entry<A>>, e: Entry<A>)
    ensures forall f :: f in Insert(q, e) <==> f == e || f in q
  {
    if q == [] || e.key < q[0].key {
    } else {
      InsertMembers(q[1..], e);
      assert q == [q[0]] + q[1..];
    }
  }

  /** Inserting the youngest entry keeps the order, also when the queue stands behind an
      already detached batch `b` whose keys are not larger. */
  lemma {:induction false} InsertChronological<A>(b: seq<Entry<A>>, q: seq<Entry<A>>, e: Entry<A>)
    requires Chronological(b + q)
    requires forall f | f in b :: f.key <= e.key
    requires forall f | f in b + q :: f.token < e.token
    ensures Chronological(b + Insert(q, e))
    decreases q
  {
    if q == [] || e.key < q[0].key {
      var r := b + ([e] + q);
      forall i, j | 0 <= i < j < |r| ensures Before(r[i], r[j]) {
        if i < |b| {
          if j < |b| {
            assert r[i] == (b + q)[i] && r[j] == (b + q)[j];
          } else if j == |b| {
            assert r[i] in b && r[i] in b + q;
          } else {
            assert r[i] == (b + q)[i] && r[j] == (b + q)[j - 1];
          }
        } else {
          assert r[j] == (b + q)[j - 1];
          if i == |b| {
            assert q[0] == (b + q)[|b|];
          } else {
            assert r[i] == (b + q)[i - 1];
          }
        }
      }
    } else {
      assert b + q == (b + [q[0]]) + q[1..];
      assert q[0] in q;
      InsertChronological(b + [q[0]], q[1..], e);
      assert (b + [q[0]]) + Insert(q[1..], e) == b + Insert(q, e);
    }
  }

  lemma {:induction false} InsertHead<A>(q: seq<Entry<A>>, e: Entry<A>)
    ensures Insert(q, e)[0] == if q == [] || e.key < q[0].key then e else q[0]
  {
  }

  lemma {:induction false} EraseMembers<A>(q: seq<Entry<A>>, e: Entry<A>)
    requires Chronological(q) && e in q
    requires forall f | f in q && f.token == e.token :: f == e
    ensures |Erase(q, e.token)| == |q| - 1
    ensures forall f :: f in Erase(q, e.token) <==> f in q && f != e
  {
    assert q == [q[0]] + q[1..];
    if q[0].token == e.token {
      assert q[0] in q;
      forall f | f in q[1..] ensures f != e {
        var i :| 0 <= i < |q[1..]| && q[1..][i] == f;
        assert Before(q[0], q[i + 1]);
      }
    } else {
      EraseMembers(q[1..], e);
    }
  }

  lemma {:induction false} EraseChronological<A>(b: seq<Entry<A>>, q: seq<Entry<A>>, token: nat)
    requires Chronological(b + q)
    ensures Chronological(b + Erase(q, token))
    decreases q
  {
    if q == [] {
    } else if q[0].token == token {
      var r := b + q[1..];
      forall i, j | 0 <= i < j < |r| ensures Before(r[i], r[j]) {
        var i', j' := if i < |b| then i else i + 1, if j < |b| then j else j + 1;
        assert r[i] == (b + q)[i'] && r[j] == (b + q)[j'];
      }
    } else {
      assert b + q == (b + [q[0]]) + q[1..];
      EraseChronological(b + [q[0]], q[1..], token);
      assert (b + [q[0]]) + Erase(q[1..], token) == b + Erase(q, token);
    }
  }

  lemma ChronologicalHead<A>(q: seq<Entry<A>>)
    requires Chronological(q) && q != []
    ensures forall e | e in q :: q[0].key <= e.key
  {
  }

  lemma ChronologicalSuffix<A>(b: seq<Entry<A>>, q: seq<Entry<A>>)
    requires Chronological(b + q)
    ensures Chronological(q)
  {
    forall i, j | 0 <= i < j < |q| ensures Before(q[i], q[j]) {
      assert q[i] == (b + q)[|b| + i] && q[j] == (b + q)[|b| + j];
    }
  }
}
