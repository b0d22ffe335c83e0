/**
 * The record store the controllers query through ActiveRecord, replaced by
 * two immutable tables keyed by primary key. `find` raises RecordNotFound
 * with ActiveRecord's message; `all` and `where` return rows in ascending
 * key order.
 */
module Store {
  import opened Wrappers
  import opened Text

  datatype Merchant = Merchant(id: nat, name: string)

  /** An item row; `unitPrice` is in hundredths of the currency unit. */
  datatype Item = Item(id: nat, name: string, description: string, unitPrice: int, merchantId: nat)

  /** The Ruby exceptions the modelled code can raise. */
  datatype Exception = RecordNotFound(message: string) | NoMethodError(message: string)

  datatype Db = Db(merchants: map<nat, Merchant>, items: map<nat, Item>)
  {
    /**
     * Each row is stored under its own id, and every item's merchant exists
     * (the foreign key that `belongs_to :merchant` and item validation keep).
     */
    ghost predicate Valid()
    {
      && (forall k :: k in merchants ==> merchants[k].id == k)
      && (forall k :: k in items ==> items[k].id == k)
      && (forall k :: k in items ==> items[k].merchantId in merchants)
    }
  }

  /** ActiveRecord's message for `Model.find(id)` when no row has that id. */
  function NotFoundMessage(model: string, id: nat): string
  {
    "Couldn't find " + model + " with 'id'=" + NatToString(id)
  }

  /** ActiveRecord's message for `Model.find(nil)`. */
  function NoIdMessage(model: string): string
  {
    "Couldn't find " + model + " without an ID"
  }

  /** `Model.find(id)`: the row, or RecordNotFound naming the model and the id. */
  function Find<T>(table: map<nat, T>, model: string, id: nat): (r: Result<T, Exception>)
    ensures r.Success? <==> id in table
    ensures r.Success? ==> r.value == table[id]
    ensures r.Failure? ==> r.error == RecordNotFound(NotFoundMessage(model, id))
  {
    if id in table then Success(table[id]) else Failure(RecordNotFound(NotFoundMessage(model, id)))
  }

  /** `Model.find(id)` where the id may be nil. */
  function FindNullable<T>(table: map<nat, T>, model: string, id: Option<nat>): (r: Result<T, Exception>)
    ensures r.Success? <==> id.Some? && id.value in table
    ensures r.Success? ==> r.value == table[id.value]
    ensures id.None? ==> r == Failure(RecordNotFound(NoIdMessage(model)))
  {
    match id
    case None => Failure(RecordNotFound(NoIdMessage(model)))
    case Some(k) => Find(table, model, k)
  }

  // ---------------------------------------------------------------------
  // Ordered enumeration of a table

  predicate StrictlyIncreasing(s: seq<nat>)
  {
    forall i, j :: 0 <= i < j < |s| ==> s[i] < s[j]
  }

  /** `k` is the smallest element of `ids`. */
  predicate IsLeast(k: nat, ids: set<nat>)
  {
    k in ids && forall j :: j in ids ==> k <= j
  }

  lemma {:induction false} LeastExists(ids: set<nat>)
    requires ids != {}
    ensures exists k :: IsLeast(k, ids)
  {
    var x :| x in ids;
    if ids - {x} == {} {
      assert ids == {x};
      assert IsLeast(x, ids);
    } else {
      LeastExists(ids - {x});
      var k :| IsLeast(k, ids - {x});
      if x < k {
        forall j | j in ids ensures x <= j {
          if j != x { assert j in ids - {x}; }
        }
        assert IsLeast(x, ids);
      } else {
        forall j | j in ids ensures k <= j {
          if j != x { assert j in ids - {x}; }
        }
        assert IsLeast(k, ids);
      }
    }
  }

  /** The keys of a table in ascending order. */
  function SortedIds(ids: set<nat>): (r: seq<nat>)
    ensures |r| == |ids|
    ensures forall k :: k in r <==> k in ids
    ensures StrictlyIncreasing(r)
    decreases |ids|
  {
    if ids == {} then []
    else
      LeastExists(ids);
      var k :| IsLeast(k, ids);
      var rest := SortedIds(ids - {k});
      SortedIdsStep(ids, k, rest);
      [k] + rest
  }

  /** The least key followed by the others in ascending order lists all keys in ascending order. */
  lemma SortedIdsStep(ids: set<nat>, k: nat, rest: seq<nat>)
    requires IsLeast(k, ids)
    requires |rest| == |ids - {k}|
    requires forall j :: j in rest <==> j in ids - {k}
    requires StrictlyIncreasing(rest)
    ensures |[k] + rest| == |ids|
    ensures forall j :: j in [k] + rest <==> j in ids
    ensures StrictlyIncreasing([k] + rest)
  {
    forall j | j in rest ensures k < j {
      assert j in ids && j != k;
    }
    ConsIncreasing(k, rest);
  }

  /** Putting a key below every key of an increasing sequence in front keeps it increasing. */
  lemma ConsIncreasing(k: nat, rest: seq<nat>)
    requires StrictlyIncreasing(rest)
    requires forall j :: j in rest ==> k < j
    ensures StrictlyIncreasing([k] + rest)
  {
    var r := [k] + rest;
    forall i, j | 0 <= i < j < |r| ensures r[i] < r[j] {
      assert r[j] == rest[j - 1];
      if i > 0 {
        assert r[i] == rest[i - 1];
      } else {
        assert rest[j - 1] in rest;
      }
    }
  }

  /** The keys in `ks` whose rows satisfy `p`, in the order of `ks`. */
  function SelectIds<T>(ks: seq<nat>, table: map<nat, T>, p: T -> bool): (r: seq<nat>)
    requires forall k :: k in ks ==> k in table
    ensures forall k :: k in r <==> k in ks && p(table[k])
    ensures StrictlyIncreasing(ks) ==> StrictlyIncreasing(r)
  {
    if ks == [] then []
    else
      var rest := SelectIds(ks[1..], table, p);
      if p(table[ks[0]]) then
        assert StrictlyIncreasing(ks) ==> StrictlyIncreasing([ks[0]] + rest) by {
          if StrictlyIncreasing(ks) {
            assert StrictlyIncreasing(ks[1..]);
            forall j | j in rest ensures ks[0] < j {
              var i :| 0 <= i < |ks[1..]| && ks[1..][i] == j;
              assert ks[i + 1] == j;
            }
            ConsIncreasing(ks[0], rest);
          }
        }
        [ks[0]] + rest
      else
        rest
  }

  /** The distinct elements of a sequence of keys. */
  function Elems(s: seq<nat>): set<nat>
  {
    set k | k in s
  }

  /** A sequence without repetitions has as many distinct elements as positions. */
  lemma {:induction false} StrictlyIncreasingCard(s: seq<nat>)
    requires StrictlyIncreasing(s)
    ensures |Elems(s)| == |s|
  {
    if s != [] {
      assert StrictlyIncreasing(s[1..]);
      StrictlyIncreasingCard(s[1..]);
      assert Elems(s) == {s[0]} + Elems(s[1..]);
    }
  }

  /** The keys whose rows satisfy `p`. */
  function Matching<T>(table: map<nat, T>, p: T -> bool): set<nat>
  {
    set k | k in table && p(table[k])
  }

  /** The keys of the rows satisfying `p`, ascending: SQL `WHERE p ORDER BY id`. */
  function WhereIds<T>(table: map<nat, T>, p: T -> bool): (ks: seq<nat>)
    ensures StrictlyIncreasing(ks)
    ensures forall k :: k in ks <==> k in table && p(table[k])
    ensures |ks| == |Matching(table, p)|
  {
    var ks := SelectIds(SortedIds(table.Keys), table, p);
    StrictlyIncreasingCard(ks);
    assert Elems(ks) == Matching(table, p) by {
      forall k ensures k in Elems(ks) <==> k in Matching(table, p) {
        assert k in ks <==> k in table && p(table[k]);
      }
    }
    ks
  }

  /** The rows satisfying `p`, one per matching key, in ascending key order. */
  function Where<T>(table: map<nat, T>, p: T -> bool): (r: seq<T>)
    ensures |r| == |WhereIds(table, p)|
    ensures forall i :: 0 <= i < |r| ==> r[i] == table[WhereIds(table, p)[i]]
  {
    var ks := WhereIds(table, p);
    assert forall k :: k in ks ==> k in table;
    RowsAt(table, ks)
  }

  /** The rows stored under the keys `ks`, in the order of `ks`. */
  function RowsAt<T>(table: map<nat, T>, ks: seq<nat>): (r: seq<T>)
    requires forall k :: k in ks ==> k in table
    ensures |r| == |ks|
    ensures forall i :: 0 <= i < |r| ==> r[i] == table[ks[i]]
  {
    if ks == [] then [] else [table[ks[0]]] + RowsAt(table, ks[1..])
  }

  /** Every row of `Where` satisfies `p`, and every stored row satisfying `p` is among them. */
  lemma WhereMembers<T>(table: map<nat, T>, p: T -> bool)
    ensures forall x :: x in Where(table, p) ==> x in table.Values && p(x)
    ensures forall k :: k in table && p(table[k]) ==> table[k] in Where(table, p)
  {
    var ks, r := WhereIds(table, p), Where(table, p);
    forall x | x in r ensures x in table.Values && p(x) {
      var i :| 0 <= i < |r| && r[i] == x;
      assert ks[i] in ks;
    }
    forall k | k in table && p(table[k]) ensures table[k] in r {
      var i :| 0 <= i < |ks| && ks[i] == k;
      assert r[i] == table[k];
    }
  }

  /** Every stored row is among those of `Model.all`. */
  lemma AllListsEveryRow<T>(table: map<nat, T>)
    ensures forall k :: k in table ==> table[k] in All(table)
  {
    var ks, rows := SortedIds(table.Keys), All(table);
    forall k | k in table ensures table[k] in rows {
      var i :| 0 <= i < |ks| && ks[i] == k;
      assert rows[i] == table[k];
    }
  }

  /** `Model.all`: every row, in ascending key order. */
  function All<T>(table: map<nat, T>): (r: seq<T>)
    ensures |r| == |table|
    ensures forall i :: 0 <= i < |r| ==> r[i] == table[SortedIds(table.Keys)[i]]
  {
    RowsAt(table, SortedIds(table.Keys))
  }
}
