/** Python dictionaries with string keys, as the runner code uses them.

    A dict is the list of its items in iteration order, each key once. Item
    assignment replaces the value of a present key where it stands and
    appends a new key at the end; `update` assigns the other dict's items in
    its order. Looking a key up does not depend on the order. */
module PyDicts {
  import opened PyValues

  predicate DistinctKeys<V>(items: seq<(string, V)>) {
    forall i, j | 0 <= i < j < |items| :: items[i].0 != items[j].0
  }

  type Dict<V> = items: seq<(string, V)> | DistinctKeys(items) witness []

  /** The keys in iteration order (`list(d)`). */
  function Keys<V>(d: seq<(string, V)>): (r: seq<string>)
    ensures |r| == |d|
    ensures forall i | 0 <= i < |d| :: r[i] == d[i].0
  {
    seq(|d|, i requires 0 <= i < |d| => d[i].0)
  }

  /** `k in d` */
  predicate In<V>(d: seq<(string, V)>, k: string) {
    exists i | 0 <= i < |d| :: d[i].0 == k
  }

  /** Position of the last item with key k, or -1 when there is none. */
  function IndexOf<V>(d: seq<(string, V)>, k: string): (i: int)
    ensures -1 <= i < |d|
    ensures i >= 0 ==> d[i].0 == k
    ensures i < 0 <==> !In(d, k)
    ensures forall j | i < j < |d| :: d[j].0 != k
  {
    if d == [] then -1
    else if d[|d| - 1].0 == k then |d| - 1
    else
      var i := IndexOf(d[..|d| - 1], k);
      assert forall j | 0 <= j < |d| - 1 :: d[..|d| - 1][j] == d[j];
      i
  }

  /** `d.get(k)` */
  function Get<V>(d: seq<(string, V)>, k: string): (r: Option<V>)
    ensures r.Some? <==> In(d, k)
  {
    var i := IndexOf(d, k);
    if i < 0 then None else Some(d[i].1)
  }

  /** In a dict, the value of a key is the one stored with it. */
  lemma GetAt<V>(d: Dict<V>, i: int)
    requires 0 <= i < |d|
    ensures Get(d, d[i].0) == Some(d[i].1)
  {
  }

  /** `d[k] = v` */
  function Set<V>(d: Dict<V>, k: string, v: V): (r: Dict<V>)
    ensures Keys(r) == if In(d, k) then Keys(d) else Keys(d) + [k]
    ensures Get(r, k) == Some(v)
    ensures forall k' | k' != k :: Get(r, k') == Get(d, k')
  {
    var i := IndexOf(d, k);
    if i >= 0 then
      var r := d[i := (k, v)];
      assert Keys(r) == Keys(d);
      assert forall k' | k' != k :: IndexOf(r, k') == IndexOf(d, k') by {
        forall k' | k' != k ensures IndexOf(r, k') == IndexOf(d, k') {
          assert In(r, k') <==> In(d, k') by {
            assert forall j | 0 <= j < |d| :: r[j].0 == d[j].0;
          }
        }
      }
      r
    else
      var r := d + [(k, v)];
      assert Keys(r) == Keys(d) + [k];
      forall k' | k' != k ensures Get(r, k') == Get(d, k') {
        assert In(r, k') <==> In(d, k') by {
          assert forall j | 0 <= j < |d| :: r[j] == d[j];
        }
      }
      r
  }

  /** Assigning a key the dict does not have appends it. */
  lemma SetNew<V>(d: Dict<V>, k: string, v: V)
    requires !In(d, k)
    ensures Set(d, k, v) == d + [(k, v)]
  {
  }

  /** `d.update(o)`: o's items assigned one by one, in o's order. */
  function Update<V>(d: Dict<V>, o: Dict<V>): Dict<V>
    decreases |o|
  {
    if o == [] then d
    else
      var n := |o| - 1;
      Set(Update(d, o[..n]), o[n].0, o[n].1)
  }

  /** After an update, o's values win and d's other entries are kept. */
  lemma {:induction false} UpdateGet<V>(d: Dict<V>, o: Dict<V>, k: string)
    ensures Get(Update(d, o), k) == if In(o, k) then Get(o, k) else Get(d, k)
    decreases |o|
  {
    if o != [] {
      var n := |o| - 1;
      var below := Update(d, o[..n]);
      assert Update(d, o) == Set(below, o[n].0, o[n].1);
      if o[n].0 == k {
        assert Get(o, k) == Some(o[n].1);
      } else {
        UpdateGet(d, o[..n], k);
        GetDropLast(o, k);
      }
    }
  }

  /** Dropping the last item does not change the other keys' values. */
  lemma GetDropLast<V>(o: Dict<V>, k: string)
    requires o != [] && o[|o| - 1].0 != k
    ensures Get(o, k) == Get(o[..|o| - 1], k)
    ensures In(o, k) == In(o[..|o| - 1], k)
  {
    var n := |o| - 1;
    assert forall j | 0 <= j < n :: o[..n][j] == o[j];
    assert IndexOf(o, k) == IndexOf(o[..n], k);
  }

  /** An update keeps d's keys first, in their order, and adds o's new keys
      after them. */
  lemma {:induction false} UpdateKeys<V>(d: Dict<V>, o: Dict<V>)
    ensures Keys(d) <= Keys(Update(d, o))
    ensures forall k :: In(Update(d, o), k) <==> In(d, k) || In(o, k)
    decreases |o|
  {
    if o != [] {
      var n := |o| - 1;
      var below := Update(d, o[..n]);
      UpdateKeys(d, o[..n]);
      var r := Set(below, o[n].0, o[n].1);
      assert Update(d, o) == r;
      assert Keys(below) <= Keys(r);
    }
    forall k ensures In(Update(d, o), k) <==> In(d, k) || In(o, k) {
      UpdateGet(d, o, k);
    }
  }

  /** Updating an empty dict copies the other one. */
  lemma {:induction false} UpdateEmpty<V>(o: Dict<V>)
    ensures Update([], o) == o
    decreases |o|
  {
    if o != [] {
      var n := |o| - 1;
      UpdateEmpty(o[..n]);
      assert !In(o[..n], o[n].0);
      SetNew(o[..n], o[n].0, o[n].1);
      assert o[..n] + [o[n]] == o;
    }
  }

  /** The reference reading of layered configuration: a key takes its value
      from the last layer that has it, and is absent when no layer has it. */
  function Resolve<V>(layers: seq<Dict<V>>, k: string): (r: Option<V>)
    ensures r.Some? <==> exists i | 0 <= i < |layers| :: In(layers[i], k)
  {
    if layers == [] then None
    else
      var n := |layers| - 1;
      assert forall i | 0 <= i < n :: layers[..n][i] == layers[i];
      if In(layers[n], k) then Get(layers[n], k) else Resolve(layers[..n], k)
  }

  /** Each layer updates the dict built from the layers below it. */
  function Cascade<V>(layers: seq<Dict<V>>): Dict<V>
    decreases |layers|
  {
    if layers == [] then []
    else Update(Cascade(layers[..|layers| - 1]), layers[|layers| - 1])
  }

  /** One layer cascades to itself. */
  lemma CascadeOne<V>(bottom: Dict<V>)
    ensures Cascade([bottom]) == bottom
  {
    assert [bottom][..0] == [];
    UpdateEmpty(bottom);
  }

  lemma CascadeTwo<V>(a: Dict<V>, b: Dict<V>)
    ensures Cascade([a, b]) == Update(a, b)
  {
    assert [a, b][..1] == [a];
    CascadeOne(a);
  }

  lemma CascadeThree<V>(a: Dict<V>, b: Dict<V>, c: Dict<V>)
    ensures Cascade([a, b, c]) == Update(Update(a, b), c)
  {
    assert [a, b, c][..2] == [a, b];
    CascadeTwo(a, b);
  }

  lemma CascadeFour<V>(a: Dict<V>, b: Dict<V>, c: Dict<V>, e: Dict<V>)
    ensures Cascade([a, b, c, e]) == Update(Update(Update(a, b), c), e)
  {
    assert [a, b, c, e][..3] == [a, b, c];
    CascadeThree(a, b, c);
  }

  /** Cascading the layers gives every key the value the reference reading
      gives it. */
  lemma {:induction false} CascadeResolves<V>(layers: seq<Dict<V>>, k: string)
    ensures Get(Cascade(layers), k) == Resolve(layers, k)
    decreases |layers|
  {
    if layers != [] {
      var n := |layers| - 1;
      CascadeResolves(layers[..n], k);
      UpdateGet(Cascade(layers[..n]), layers[n], k);
    }
  }

  /** The bottom layer's keys come first, in their own order. */
  lemma {:induction false} CascadeKeepsBottomOrder<V>(layers: seq<Dict<V>>)
    requires layers != []
    ensures Keys(layers[0]) <= Keys(Cascade(layers))
    decreases |layers|
  {
    var n := |layers| - 1;
    var below := Cascade(layers[..n]);
    assert Cascade(layers) == Update(below, layers[n]);
    UpdateKeys(below, layers[n]);
    if n == 0 {
      assert below == [];
      UpdateEmpty(layers[0]);
    } else {
      CascadeKeepsBottomOrder(layers[..n]);
      assert layers[..n][0] == layers[0];
    }
  }
}
