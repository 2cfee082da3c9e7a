/**
 Ranks among the items given to the SDK: the reserved responses, the SDK's own, and all responses, each in wire order.

 The writer frees one slot for every response it flushes, whoever made it. So what it has freed is told by a count of
 responses, and what it has flushed of the reserved ones by a count of those alone.
 */
module WireRanks {
  import opened Prelude
  import opened CallbackQueue
  import opened OperatorDelivery

  predicate IsResponse(i: Item) { i.Response? }

  /** A response that the SDK made up itself. */
  predicate OfSdk(i: Item) { i.Response? && i.origin == Sdk }

  /** Those of the first `n` items that `p` holds of, in order. */
  function Among(items: seq<Item>, n: nat, p: Item -> bool): seq<Item>
    requires n <= |items|
  {
    if n == 0 then [] else Among(items, n - 1, p) + (if p(items[n - 1]) then [items[n - 1]] else [])
  }

  /** Every response that was enqueued with a reservation. */
  function Reserved(items: seq<Item>): seq<Item> { Among(items, |items|, IsReserved) }

  lemma {:induction false} AmongPrefix(items: seq<Item>, more: seq<Item>, n: nat, p: Item -> bool)
    requires n <= |items|
    ensures Among(items + more, n, p) == Among(items, n, p)
  {
    if n > 0 {
      AmongPrefix(items, more, n - 1, p);
    }
  }

  lemma {:induction false} AmongGrows(items: seq<Item>, m: nat, n: nat, p: Item -> bool)
    requires m <= n <= |items|
    ensures Among(items, m, p) <= Among(items, n, p)
  {
    if m < n {
      AmongGrows(items, m, n - 1, p);
    }
  }

  lemma ReservedAppend(items: seq<Item>, i: Item)
    ensures Reserved(items + [i]) == Reserved(items) + (if IsReserved(i) then [i] else [])
  {
    AmongPrefix(items, [i], |items|, IsReserved);
    assert (items + [i])[|items|] == i;
  }

  /** The reserved responses that are flushed come first among all reserved ones, and the next one comes next. */
  lemma ReservedSplits(items: seq<Item>, n: nat)
    requires n <= |items|
    ensures Among(items, n, IsReserved) <= Reserved(items)
    ensures n < |items| && IsReserved(items[n]) ==>
              var own := |Among(items, n, IsReserved)|; own < |Reserved(items)| && Reserved(items)[own] == items[n]
  {
    AmongGrows(items, n, |items|, IsReserved);
    if n < |items| {
      AmongGrows(items, n + 1, |items|, IsReserved);
    }
  }

  lemma {:induction false} AmongAre(items: seq<Item>, n: nat, p: Item -> bool, x: Item)
    requires n <= |items|
    ensures x in Among(items, n, p) <==> p(x) && exists k :: 0 <= k < n && items[k] == x
  {
    if n > 0 {
      AmongAre(items, n - 1, p, x);
    }
  }

  /** Different ranks are different places. */
  lemma {:induction false} RanksApart(items: seq<Item>, n: nat, p: Item -> bool, a: nat, b: nat)
    requires n <= |items| && a < b < |Among(items, n, p)|
    ensures exists k, l :: 0 <= k < l < n && items[k] == Among(items, n, p)[a] && items[l] == Among(items, n, p)[b]
  {
    var before := Among(items, n - 1, p);
    if b < |before| {
      RanksApart(items, n - 1, p, a, b);
    } else {
      AmongAre(items, n - 1, p, before[a]);
      var k :| 0 <= k < n - 1 && items[k] == before[a];
    }
  }

  // ---------------------------------------------------------------- counting responses

  function ItemTexts(items: seq<Item>): seq<string> { seq(|items|, i requires 0 <= i < |items| => items[i].text) }

  lemma TextsSplit(items: seq<Item>, n: nat)
    requires n <= |items|
    ensures multiset(ItemTexts(items)) == multiset(ItemTexts(items[..n])) + multiset(ItemTexts(items[n..]))
  {
    assert ItemTexts(items) == ItemTexts(items[..n]) + ItemTexts(items[n..]);
  }

  /** The texts of those items, whatever their order. */
  function TextsAmong(items: seq<Item>, n: nat, p: Item -> bool): multiset<string>
    requires n <= |items|
  {
    if n == 0 then multiset{}
    else if p(items[n - 1]) then TextsAmong(items, n - 1, p) + multiset{items[n - 1].text}
    else TextsAmong(items, n - 1, p)
  }

  lemma {:induction false} TextsAreAmong(items: seq<Item>, n: nat, p: Item -> bool)
    requires n <= |items|
    ensures multiset(ItemTexts(Among(items, n, p))) == TextsAmong(items, n, p)
  {
    if n == 0 {
      assert ItemTexts(Among(items, n, p)) == [];
    } else {
      var before := Among(items, n - 1, p);
      TextsAreAmong(items, n - 1, p);
      if p(items[n - 1]) {
        assert ItemTexts(before + [items[n - 1]]) == ItemTexts(before) + [items[n - 1].text];
      } else {
        assert Among(items, n, p) == before;
      }
    }
  }

  /** A response is reserved or the SDK's own. */
  lemma {:induction false} TwoKinds(items: seq<Item>, n: nat)
    requires n <= |items|
    ensures |Among(items, n, IsResponse)| == |Among(items, n, IsReserved)| + |Among(items, n, OfSdk)|
  {
    if n > 0 {
      TwoKinds(items, n - 1);
    }
  }

  lemma {:induction false} TextsOfTwoKinds(items: seq<Item>, n: nat)
    requires n <= |items|
    ensures TextsAmong(items, n, IsResponse) == TextsAmong(items, n, IsReserved) + TextsAmong(items, n, OfSdk)
  {
    if n > 0 {
      TextsOfTwoKinds(items, n - 1);
    }
  }

  lemma SameTexts(a: seq<Item>, b: seq<Item>)
    requires |a| == |b| && forall j :: 0 <= j < |a| ==> a[j].text == b[j].text
    ensures ItemTexts(a) == ItemTexts(b)
  {
  }

  /** What takes the place of the reserved responses in `freed` that were not flushed has their texts. */
  lemma TextsOfTheRest(items: seq<Item>, n: nat, freed: seq<Item>)
    requires n <= |items| && ItemTexts(freed) == ItemTexts(Among(items, n, IsResponse))
    requires Among(items, n, IsReserved) <= freed
    ensures multiset(ItemTexts(freed[|Among(items, n, IsReserved)|..])) == multiset(ItemTexts(Among(items, n, OfSdk)))
  {
    TextsOfTwoKinds(items, n);
    TextsAreAmong(items, n, IsResponse);
    TextsAreAmong(items, n, IsReserved);
    TextsAreAmong(items, n, OfSdk);
    var own := Among(items, n, IsReserved);
    TextsSplit(freed, |own|);
    assert freed[..|own|] == own;
    Cancel(TextsAmong(items, n, IsReserved), multiset(ItemTexts(freed[|own|..])), TextsAmong(items, n, OfSdk));
  }

  lemma Cancel(a: multiset<string>, x: multiset<string>, y: multiset<string>)
    requires a + x == a + y
    ensures x == y
  {
    forall s: string ensures x[s] == y[s] {
      assert (a + x)[s] == (a + y)[s];
    }
  }

  // ---------------------------------------------------------------- who carries an acknowledgement

  predicate Carries(i: Item, t: Ticket) { i.Response? && i.origin.Answering? && i.origin.reply == Some(t) }

  predicate Carried(items: seq<Item>, t: Ticket) { exists j :: 0 <= j < |items| && Carries(items[j], t) }

  predicate FlushedFor(items: seq<Item>, n: nat, t: Ticket)
    requires n <= |items|
  {
    exists i :: 0 <= i < n && Carries(items[i], t)
  }

  /** An answer was flushed exactly when it is among the reserved responses that were. */
  lemma {:induction false} FlushedByRank(items: seq<Item>, n: nat, t: Ticket)
    requires n <= |items|
    ensures FlushedFor(items, n, t) <==> Carried(Among(items, n, IsReserved), t)
  {
    var own := Among(items, n, IsReserved);
    if FlushedFor(items, n, t) {
      var i :| 0 <= i < n && Carries(items[i], t);
      AmongAre(items, n, IsReserved, items[i]);
      var j :| 0 <= j < |own| && own[j] == items[i];
      assert Carries(own[j], t);
    }
    if Carried(own, t) {
      var j :| 0 <= j < |own| && Carries(own[j], t);
      AmongAre(items, n, IsReserved, own[j]);
    }
  }
}
