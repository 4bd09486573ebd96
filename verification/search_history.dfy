/**
 * The search-history list kept by `useSearchHistory`: most recent keyword
 * first, no repeated keyword, at most `MaxHistory` entries. Only the list
 * transforms are modelled; the JSON round trip through local storage is not.
 */
module SearchHistory {
  import opened JsText

  const MaxHistory: nat := 10

  /** No keyword occurs twice. */
  predicate NoDup(h: seq<string>) {
    forall i, j :: 0 <= i < j < |h| ==> h[i] != h[j]
  }

  /** `h.filter(item => item !== kw)`: every other entry, in the original order. */
  function Without(h: seq<string>, kw: string): (r: seq<string>)
    ensures kw !in r
    ensures forall x :: x in r <==> x in h && x != kw
    ensures multiset(r) == multiset(h)[kw := 0]
    ensures |r| <= |h|
  {
    if h == [] then []
    else
      assert h == [h[0]] + h[1..];
      (if h[0] == kw then [] else [h[0]]) + Without(h[1..], kw)
  }

  /** Filtering distributes over concatenation, so the survivors keep their relative order. */
  lemma {:induction false} WithoutConcat(a: seq<string>, b: seq<string>, kw: string)
    ensures Without(a + b, kw) == Without(a, kw) + Without(b, kw)
  {
    if a == [] {
      assert a + b == b;
    } else {
      assert (a + b)[0] == a[0];
      assert (a + b)[1..] == a[1..] + b;
      WithoutConcat(a[1..], b, kw);
    }
  }

  /** Filtering out a keyword that is absent changes nothing. */
  lemma {:induction false} WithoutAbsent(h: seq<string>, kw: string)
    requires kw !in h
    ensures Without(h, kw) == h
  {
    if h != [] {
      WithoutAbsent(h[1..], kw);
    }
  }

  /** Filtering keeps a list free of duplicates. */
  lemma {:induction false} WithoutNoDup(h: seq<string>, kw: string)
    requires NoDup(h)
    ensures NoDup(Without(h, kw))
  {
    if h != [] {
      assert NoDup(h[1..]) by {
        forall i, j | 0 <= i < j < |h| - 1
          ensures h[1..][i] != h[1..][j]
        {
          assert h[1..][i] == h[i + 1] && h[1..][j] == h[j + 1];
        }
      }
      assert h[0] !in h[1..] by {
        forall j | 0 <= j < |h| - 1
          ensures h[1..][j] != h[0]
        {
          assert h[1..][j] == h[j + 1];
        }
      }
      WithoutNoDup(h[1..], kw);
    }
  }

  /**
   * `addHistory(kw)`: a keyword that is blank after trimming leaves the list
   * alone; otherwise the keyword, untrimmed, goes to the front, its earlier
   * occurrences are removed, and the list is cut to the `MaxHistory` most
   * recent entries.
   */
  function AddHistory(h: seq<string>, kw: string): (r: seq<string>)
    ensures Blank(kw) ==> r == h
    ensures !Blank(kw) ==> 1 <= |r| <= MaxHistory && r[0] == kw && kw !in r[1..]
    ensures !Blank(kw) ==> forall x :: x in r[1..] ==> x in h
  {
    if Blank(kw) then h
    else
      var w := Without(h, kw);
      var r := ([kw] + w)[..if |w| + 1 < MaxHistory then |w| + 1 else MaxHistory];
      assert r[1..] == w[..|r| - 1];
      assert forall x :: x in r[1..] ==> x in w;
      r
  }

  /**
   * The entries behind the new front keyword are the other entries of the old
   * list, in their old order, of which only the oldest are dropped by the cap.
   */
  lemma AddHistoryKeepsOrder(h: seq<string>, kw: string)
    requires !Blank(kw)
    ensures var r := AddHistory(h, kw);
      var w := Without(h, kw);
      && |r| == (if |w| < MaxHistory then |w| + 1 else MaxHistory)
      && r[1..] == w[..|r| - 1]
  {
    var r := AddHistory(h, kw);
    var w := Without(h, kw);
    assert r == ([kw] + w)[..|r|];
    assert r[1..] == w[..|r| - 1];
  }

  /** A list without duplicates stays without duplicates. */
  lemma AddHistoryNoDup(h: seq<string>, kw: string)
    requires NoDup(h)
    ensures NoDup(AddHistory(h, kw))
  {
    if !Blank(kw) {
      var r := AddHistory(h, kw);
      var w := Without(h, kw);
      WithoutNoDup(h, kw);
      AddHistoryKeepsOrder(h, kw);
      forall i, j | 0 <= i < j < |r|
        ensures r[i] != r[j]
      {
        if i == 0 {
          assert r[j] == r[1..][j - 1];
        } else {
          assert r[i] == w[i - 1] && r[j] == w[j - 1];
        }
      }
    }
  }

  /** A list that already starts with its only occurrence of `kw`, within the cap, is a fixed point. */
  lemma AddHistoryFront(r: seq<string>, kw: string)
    requires !Blank(kw) && 1 <= |r| <= MaxHistory && r[0] == kw && kw !in r[1..]
    ensures AddHistory(r, kw) == r
  {
    assert r == [kw] + r[1..];
    WithoutConcat([kw], r[1..], kw);
    WithoutAbsent(r[1..], kw);
    var w := Without(r, kw);
    assert w == r[1..];
    assert ([kw] + w)[..|w| + 1] == r;
  }

  /** Searching the same keyword twice in a row is the same as searching it once. */
  lemma AddHistoryIdempotent(h: seq<string>, kw: string)
    ensures AddHistory(AddHistory(h, kw), kw) == AddHistory(h, kw)
  {
    if !Blank(kw) {
      AddHistoryFront(AddHistory(h, kw), kw);
    }
  }

  /** `removeHistory(kw)`: every occurrence goes, the rest keep their order. */
  function RemoveHistory(h: seq<string>, kw: string): (r: seq<string>)
    ensures kw !in r
    ensures forall x :: x != kw ==> multiset(r)[x] == multiset(h)[x]
  {
    Without(h, kw)
  }

  /** Removing a keyword just searched leaves the other recent keywords in order. */
  lemma RemoveAfterAdd(h: seq<string>, kw: string)
    requires !Blank(kw)
    ensures var w := Without(h, kw);
      RemoveHistory(AddHistory(h, kw), kw) == w[..if |w| < MaxHistory then |w| else MaxHistory - 1]
  {
    var r := AddHistory(h, kw);
    AddHistoryKeepsOrder(h, kw);
    assert r == [kw] + r[1..];
    WithoutConcat([kw], r[1..], kw);
    WithoutAbsent(r[1..], kw);
  }

  /** `clearHistory()`: the empty list, whatever was there. */
  function ClearHistory(h: seq<string>): (r: seq<string>)
    ensures |r| == 0
    ensures forall kw :: RemoveHistory(r, kw) == r
  {
    []
  }
}
