/**
 * What both bank servers share about their account table: account numbers
 * are `str(len(contas) + 100)`, and the total money held is the sum of the
 * balances in a map.
 */
module Ledger {
  import opened Common
  import opened Text

  /** Balances and amounts: exact numbers standing for Python floats. */
  type Amount = real

  /** Python's `float(text)`, abstracted: `None` where it raises `ValueError`. */
  type AmountParser = string -> Option<Amount>

  /** The offset added to the table size to form a new account number. */
  const ID_OFFSET: nat := 100

  /** The number given to the account created when the table holds `n` accounts. */
  function AccountId(n: nat): (id: string)
    ensures IsDigits(id)
  {
    NatToString(n + ID_OFFSET)
  }

  /** The numbers given out by the first `n` creations. */
  function IssuedIds(n: nat): set<string>
  {
    set i | 0 <= i < n :: AccountId(i)
  }

  /** The number handed out next is new, and it is the only one added. */
  lemma FreshId(n: nat)
    ensures AccountId(n) !in IssuedIds(n)
    ensures IssuedIds(n + 1) == IssuedIds(n) + {AccountId(n)}
  {
    if AccountId(n) in IssuedIds(n) {
      var i :| 0 <= i < n && AccountId(i) == AccountId(n);
      NatToStringInjective(i + ID_OFFSET, n + ID_OFFSET);
      assert false;
    }
    assert IssuedIds(n + 1) == IssuedIds(n) + {AccountId(n)} by {
      forall id | id in IssuedIds(n + 1) ensures id in IssuedIds(n) + {AccountId(n)} {
        var i :| 0 <= i < n + 1 && AccountId(i) == id;
        if i < n { assert id in IssuedIds(n); }
      }
    }
  }

  // ---------------------------------------------------------------------
  // The sum of the values of a map
  // ---------------------------------------------------------------------

  /** Some key of a non-empty map. */
  ghost function Pick<K>(m: map<K, Amount>): K
    requires m != map[]
  {
    var k :| k in m; k
  }

  /** The sum of the values of `m`. */
  ghost function Sum<K>(m: map<K, Amount>): Amount
    decreases |m|
  {
    if m == map[] then 0.0
    else
      var k := Pick(m);
      m[k] + Sum(m - {k})
  }

  /** The sum may be taken apart at any key, not only at the one Pick chooses. */
  lemma {:induction false} SumRemove<K>(m: map<K, Amount>, k: K)
    requires k in m
    ensures Sum(m) == m[k] + Sum(m - {k})
    decreases |m|
  {
    var j := Pick(m);
    if j != k {
      SumRemove(m - {j}, k);
      SumRemove(m - {k}, j);
      assert m - {j} - {k} == m - {k} - {j};
    }
  }

  /** Changing the value at an existing key changes the sum by the difference. */
  lemma SumUpdate<K>(m: map<K, Amount>, k: K, v: Amount)
    requires k in m
    ensures Sum(m[k := v]) == Sum(m) - m[k] + v
  {
    SumRemove(m, k);
    SumRemove(m[k := v], k);
    assert m[k := v] - {k} == m - {k};
  }

  /** Adding a new key adds its value to the sum. */
  lemma SumInsert<K>(m: map<K, Amount>, k: K, v: Amount)
    requires k !in m
    ensures Sum(m[k := v]) == Sum(m) + v
  {
    SumRemove(m[k := v], k);
    assert m[k := v] - {k} == m;
  }

  /** The values of `m` seen through `f`. */
  ghost function Project<K, V>(m: map<K, V>, f: V -> Amount): (p: map<K, Amount>)
    ensures p.Keys == m.Keys
  {
    map k | k in m :: f(m[k])
  }

  /** Projection commutes with updating one key. */
  lemma ProjectUpdate<K, V>(m: map<K, V>, f: V -> Amount, k: K, v: V)
    ensures Project(m[k := v], f) == Project(m, f)[k := f(v)]
  {
  }

  /** Replacing the value at an existing key changes the projected sum by the difference. */
  lemma SumProjectUpdate<K, V>(m: map<K, V>, f: V -> Amount, k: K, v: V)
    requires k in m
    ensures Sum(Project(m[k := v], f)) == Sum(Project(m, f)) - f(m[k]) + f(v)
  {
    ProjectUpdate(m, f, k, v);
    SumUpdate(Project(m, f), k, f(v));
  }

  /** Entering a value under a new key adds its projection to the sum. */
  lemma SumProjectInsert<K, V>(m: map<K, V>, f: V -> Amount, k: K, v: V)
    requires k !in m
    ensures Sum(Project(m[k := v], f)) == Sum(Project(m, f)) + f(v)
  {
    ProjectUpdate(m, f, k, v);
    SumInsert(Project(m, f), k, f(v));
  }
}
