/** What happens to the per-term search results between the fan-out and the
    formatting: `Promise.all` collects them by position, a term whose response
    is not ok contributes an empty list, `flat()` splices them one level, and
    `filter(p => p != null)` drops the null entries. */
module Pipeline {

  import opened Options
  import opened Catalog

  /** The JSON body of an ok response. An array is spliced by `flat()`; any
      other value stays one element. An entry that is not an object (or is a
      nested array) behaves as a record with no items. */
  datatype Body = Many(entries: seq<Option<Record>>) | One(entry: Option<Record>)

  /** How one term's search ends. `Failed` covers a rejected `fetch` and a
      body that is not JSON: both reject the joint wait. */
  datatype TermResponse = Failed | NotOk | Ok(body: Body)

  /** The value one term's callback resolves to: an empty array when the
      response is not ok, the parsed body otherwise. */
  function Settled(r: TermResponse): Body
    requires !r.Failed?
  {
    match r
    case NotOk => Many([])
    case Ok(b) => b
  }

  /** `b` is what a search that ended with `r` contributes: nothing when the
      response is not ok, its body when it is. */
  predicate SettlesTo(r: TermResponse, b: Body) {
    && !r.Failed?
    && (r.NotOk? ==> b == Many([]))
    && (r.Ok? ==> b == r.body)
  }

  /** `Promise.all` over the per-term promises: the settled values in term
      order, or nothing when any of them rejects. */
  function Settle(rs: seq<TermResponse>): (r: Option<seq<Body>>)
    ensures r.Some? <==> forall i :: 0 <= i < |rs| ==> !rs[i].Failed?
    ensures r.Some? ==> |r.value| == |rs| && forall i :: 0 <= i < |rs| ==> SettlesTo(rs[i], r.value[i])
    decreases |rs|
  {
    if |rs| == 0 then Some([])
    else if rs[0].Failed? then None
    else match Settle(rs[1..])
      case None => None
      case Some(rest) => Some([Settled(rs[0])] + rest)
  }

  /** A term whose response is not ok contributes an empty list and leaves
      every other term's settled value as it was. */
  lemma SoftFailure(rs: seq<TermResponse>, k: nat)
    requires k < |rs| && Settle(rs).Some?
    ensures Settle(rs[k := NotOk]) == Some(Settle(rs).value[k := Many([])])
  {
    var before := Settle(rs).value;
    var after := Settle(rs[k := NotOk]);
    assert after.Some?;
    assert after.value == before[k := Many([])];
  }

  /** The elements one settled value contributes to `flat()`. */
  function Spliced(b: Body): seq<Option<Record>> {
    match b
    case Many(es) => es
    case One(e) => [e]
  }

  /** `results.flat()`. */
  function Flat(bs: seq<Body>): seq<Option<Record>>
    decreases |bs|
  {
    if |bs| == 0 then [] else Spliced(bs[0]) + Flat(bs[1..])
  }

  lemma {:induction false} FlatAppend(a: seq<Body>, b: seq<Body>)
    ensures Flat(a + b) == Flat(a) + Flat(b)
    decreases |a|
  {
    if |a| == 0 {
      assert a + b == b;
    } else {
      assert (a + b)[1..] == a[1..] + b;
      FlatAppend(a[1..], b);
    }
  }

  /** The flattened list is grouped by term in term order: the entries of term
      `i` come, in their response order, right after those of the terms before
      it. */
  lemma FlatAt(bs: seq<Body>, i: nat, j: nat)
    requires i < |bs| && j < |Spliced(bs[i])|
    ensures |Flat(bs[..i])| + j < |Flat(bs)|
    ensures Flat(bs)[|Flat(bs[..i])| + j] == Spliced(bs[i])[j]
  {
    assert bs == bs[..i] + [bs[i]] + bs[i + 1..];
    FlatAppend(bs[..i] + [bs[i]], bs[i + 1..]);
    FlatAppend(bs[..i], [bs[i]]);
    assert Flat([bs[i]]) == Spliced(bs[i]) + Flat([]);
  }

  /** Emptying one term's value removes exactly that term's block. */
  lemma FlatWithout(bs: seq<Body>, k: nat)
    requires k < |bs|
    ensures Flat(bs[k := Many([])]) == Flat(bs[..k]) + Flat(bs[k + 1..])
  {
    var cs := bs[k := Many([])];
    FlatBlocks(cs, k);
    assert cs[..k] == bs[..k] && cs[k + 1..] == bs[k + 1..];
  }

  /** `filter(p => p != null)`. */
  function NonNull<T>(xs: seq<Option<T>>): seq<T>
    decreases |xs|
  {
    if |xs| == 0 then [] else Kept(xs[0]) + NonNull(xs[1..])
  }

  /** What the filter keeps of one entry. */
  function Kept<T>(x: Option<T>): seq<T> {
    if x.Some? then [x.value] else []
  }

  /** The filter keeps as many entries as are not null. */
  lemma {:induction false} NonNullCount<T>(xs: seq<Option<T>>)
    ensures |NonNull(xs)| == |xs| - multiset(xs)[None]
    decreases |xs|
  {
    if |xs| > 0 {
      assert xs == [xs[0]] + xs[1..];
      NonNullCount(xs[1..]);
    }
  }

  /** Every kept record was present in the input, and every present record is
      kept. */
  lemma {:induction false} NonNullMembers<T>(xs: seq<Option<T>>)
    ensures forall i :: 0 <= i < |NonNull(xs)| ==> Some(NonNull(xs)[i]) in xs
    ensures forall i :: 0 <= i < |xs| && xs[i].Some? ==> xs[i].value in NonNull(xs)
    decreases |xs|
  {
    if |xs| > 0 {
      NonNullMembers(xs[1..]);
      assert forall x :: x in xs[1..] ==> x in xs;
      assert forall i :: 1 <= i < |xs| ==> xs[i] == xs[1..][i - 1];
    }
  }

  lemma {:induction false} NonNullAppend<T>(a: seq<Option<T>>, b: seq<Option<T>>)
    ensures NonNull(a + b) == NonNull(a) + NonNull(b)
    decreases |a|
  {
    if |a| == 0 {
      assert a + b == b;
    } else {
      var ab := a + b;
      assert ab[0] == a[0] && ab[1..] == a[1..] + b;
      NonNullAppend(a[1..], b);
      calc {
        NonNull(ab);
        Kept(a[0]) + NonNull(a[1..] + b);
        Kept(a[0]) + (NonNull(a[1..]) + NonNull(b));
        (Kept(a[0]) + NonNull(a[1..])) + NonNull(b);
      }
    }
  }

  /** The filter keeps every present entry in place: entry `i` lands right
      after the survivors of the entries before it. */
  lemma NonNullAt<T>(xs: seq<Option<T>>, i: nat)
    requires i < |xs| && xs[i].Some?
    ensures |NonNull(xs[..i])| < |NonNull(xs)|
    ensures NonNull(xs)[|NonNull(xs[..i])|] == xs[i].value
  {
    assert xs == xs[..i] + [xs[i]] + xs[i + 1..];
    NonNullAppend(xs[..i] + [xs[i]], xs[i + 1..]);
    NonNullAppend(xs[..i], [xs[i]]);
    assert NonNull([xs[i]]) == [xs[i].value] + NonNull([]);
  }

  /** Placing each result in its slot as it arrives, in any arrival order. */
  function Fill<T>(slots: map<nat, T>, arrivals: seq<nat>, values: seq<T>): (m: map<nat, T>)
    requires forall t :: 0 <= t < |arrivals| ==> arrivals[t] < |values|
    ensures forall k :: k in arrivals ==> k in m && m[k] == values[k]
    ensures forall k :: k in slots && k !in arrivals ==> k in m && m[k] == slots[k]
    decreases |arrivals|
  {
    if |arrivals| == 0 then slots
    else
      var k := arrivals[0];
      assert forall j :: j in arrivals ==> j == k || j in arrivals[1..];
      Fill(slots[k := values[k]], arrivals[1..], values)
  }

  /** The positional collection `Promise.all` performs: whatever order the
      searches complete in, result `i` is the value of search `i`. */
  function Gather<T>(arrivals: seq<nat>, values: seq<T>): (r: seq<T>)
    requires forall t :: 0 <= t < |arrivals| ==> arrivals[t] < |values|
    requires forall i :: 0 <= i < |values| ==> i in arrivals
    ensures r == values
  {
    var m := Fill(map[], arrivals, values);
    seq(|values|, i requires 0 <= i < |values| => m[i])
  }

  /** The value `Promise.all` resolves to is the positional collection of
      the per-term values, in whatever order the searches complete. */
  lemma SettleIsGathered(rs: seq<TermResponse>, arrivals: seq<nat>)
    requires Settle(rs).Some?
    requires forall t :: 0 <= t < |arrivals| ==> arrivals[t] < |rs|
    requires forall i :: 0 <= i < |rs| ==> i in arrivals
    ensures Settle(rs).value
         == Gather(arrivals, seq(|rs|, i requires 0 <= i < |rs| => if rs[i].Failed? then Many([]) else Settled(rs[i])))
  {
    var values := seq(|rs|, i requires 0 <= i < |rs| => if rs[i].Failed? then Many([]) else Settled(rs[i]));
    assert Settle(rs).value == values;
  }

  /** When no entry is null, the filter keeps every entry in place. */
  lemma {:induction false} NonNullAllPresent<T>(xs: seq<Option<T>>)
    requires forall i :: 0 <= i < |xs| ==> xs[i].Some?
    ensures |NonNull(xs)| == |xs|
    ensures forall i :: 0 <= i < |xs| ==> NonNull(xs)[i] == xs[i].value
    decreases |xs|
  {
    if |xs| > 0 {
      NonNullAllPresent(xs[1..]);
      assert NonNull(xs) == [xs[0].value] + NonNull(xs[1..]);
    }
  }

  /** Filtering the flattened values, split at term `k`: the survivors before
      term `k`, those of term `k`, and those after it. Emptying term `k`
      leaves the outer two. */
  lemma FilteredBlocks(results: seq<Body>, k: nat)
    requires k < |results|
    ensures NonNull(Flat(results))
         == NonNull(Flat(results[..k])) + NonNull(Spliced(results[k])) + NonNull(Flat(results[k + 1..]))
    ensures NonNull(Flat(results[k := Many([])]))
         == NonNull(Flat(results[..k])) + NonNull(Flat(results[k + 1..]))
  {
    FlatBlocks(results, k);
    FlatWithout(results, k);
    NonNullAppend3(Flat(results[..k]), Spliced(results[k]), Flat(results[k + 1..]));
    NonNullAppend(Flat(results[..k]), Flat(results[k + 1..]));
  }

  lemma FlatBlocks(results: seq<Body>, k: nat)
    requires k < |results|
    ensures Flat(results) == Flat(results[..k]) + Spliced(results[k]) + Flat(results[k + 1..])
  {
    assert results == results[..k] + results[k..];
    FlatAppend(results[..k], results[k..]);
    var tail := results[k..];
    assert tail[0] == results[k] && tail[1..] == results[k + 1..];
    assert Flat(tail) == Spliced(tail[0]) + Flat(tail[1..]);
  }

  lemma NonNullAppend3<T>(a: seq<Option<T>>, b: seq<Option<T>>, c: seq<Option<T>>)
    ensures NonNull(a + b + c) == NonNull(a) + NonNull(b) + NonNull(c)
  {
    NonNullAppend(a + b, c);
    NonNullAppend(a, b);
  }

  /** The products formatted from the settled values: flattened, stripped of
      nulls and formatted. */
  function Products(results: seq<Body>): Option<seq<Product>> {
    FormatAll(NonNull(Flat(results)))
  }

  /** The products of the settled values are those of each term in turn, and
      formatting fails exactly when some term's records cannot be formatted.
      Emptying term `k` (a response that is not ok) leaves the products of
      the other terms, unchanged and in order. */
  lemma ProductsByBlocks(results: seq<Body>, k: nat)
    requires k < |results|
    ensures Products(results).Some?
      <==> Products(results[..k]).Some? && Products([results[k]]).Some? && Products(results[k + 1..]).Some?
    ensures Products(results).Some? ==>
      (Products(results).value
       == Products(results[..k]).value + Products([results[k]]).value + Products(results[k + 1..]).value)
    ensures Products(results[..k]).Some? && Products(results[k + 1..]).Some? ==>
      Products(results[k := Many([])]) == Some(Products(results[..k]).value + Products(results[k + 1..]).value)
  {
    FilteredBlocks(results, k);
    var h, m, t := NonNull(Flat(results[..k])), NonNull(Spliced(results[k])), NonNull(Flat(results[k + 1..]));
    assert [results[k]][1..] == [];
    assert Flat([results[k]]) == Spliced(results[k]);
    FormatAllAppend(h + m, t);
    FormatAllAppend(h, m);
    FormatAllAppend(h, t);
  }
}
