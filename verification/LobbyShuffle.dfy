/** The shuffle: Fisher-Yates over the seated players' PIDs, dealt back into the same slots. */
module LobbyShuffle {
  import opened Bytes
  import opened Lobby
  import opened LobbyKeeps
  import opened Sequences

  type Seat = (Byte, Byte)

  // ---- Fisher-Yates on any sequence ----

  function Exchanged<T>(s: seq<T>, i: nat, j: nat): (r: seq<T>)
    requires i < |s| && j < |s|
    ensures |r| == |s|
  {
    s[i := s[j]][j := s[i]]
  }

  /** The position drawn in the round for position i. */
  function Pick(draws: seq<nat>, i: nat): (j: nat)
    requires i < |draws|
    ensures j <= i
  {
    draws[i] % (i + 1)
  }

  /** s after the rounds for positions n - 1 down to 1; round i uses draws[i]. */
  function Mixed<T>(s: seq<T>, draws: seq<nat>, n: nat): seq<T>
    requires n <= |s| <= |draws|
    decreases n
  {
    if n <= 1 then s else Mixed(Exchanged(s, n - 1, Pick(draws, n - 1)), draws, n - 1)
  }

  lemma ExchangedKeeps<T>(s: seq<T>, i: nat, j: nat)
    requires i < |s| && j < |s|
    ensures multiset(Exchanged(s, i, j)) == multiset(s)
  {}

  lemma {:induction false} MixedKeeps<T>(s: seq<T>, draws: seq<nat>, n: nat)
    requires n <= |s| <= |draws|
    ensures |Mixed(s, draws, n)| == |s| && multiset(Mixed(s, draws, n)) == multiset(s)
    ensures forall k :: n <= k < |s| ==> Mixed(s, draws, n)[k] == s[k]
    decreases n
  {
    if n > 1 {
      var j := Pick(draws, n - 1);
      ExchangedKeeps(s, n - 1, j);
      MixedKeeps(Exchanged(s, n - 1, j), draws, n - 1);
    }
  }

  /** The draws that decide the rounds: only their remainders matter. */
  ghost predicate SameDraws(d: seq<nat>, e: seq<nat>, n: nat) {
    n <= |d| && n <= |e| && forall i :: 1 <= i < n ==> Pick(d, i) == Pick(e, i)
  }

  lemma {:induction false} SameDrawsSameOrder<T>(s: seq<T>, d: seq<nat>, e: seq<nat>, n: nat)
    requires n <= |s| <= |d| && |s| <= |e| && SameDraws(d, e, n)
    ensures Mixed(s, d, n) == Mixed(s, e, n)
    decreases n
  {
    if n > 1 { SameDrawsSameOrder(Exchanged(s, n - 1, Pick(d, n - 1)), d, e, n - 1); }
  }

  lemma ExchangedAt<T>(s: seq<T>, i: nat, j: nat)
    requires i < |s| && j < |s|
    ensures |Exchanged(s, i, j)| == |s| && Exchanged(s, i, j)[i] == s[j]
    ensures forall k :: 0 <= k < |s| && k != i && k != j ==> Exchanged(s, i, j)[k] == s[k]
  {}

  lemma ExchangedDistinct<T>(s: seq<T>, i: nat, j: nat)
    requires Distinct(s) && i < |s| && j < |s|
    ensures Distinct(Exchanged(s, i, j))
  {}

  /** Every order of distinct elements comes from one choice of positions only. */
  lemma {:induction false} OrderDeterminesDraws<T>(s: seq<T>, d: seq<nat>, e: seq<nat>, n: nat)
    requires Distinct(s) && n <= |s| <= |d| && |s| <= |e| && Mixed(s, d, n) == Mixed(s, e, n)
    ensures SameDraws(d, e, n)
    decreases n
  {
    hide Pick, Exchanged;
    if n > 1 {
      var i, j := Pick(d, n - 1), Pick(e, n - 1);
      var t, u := Exchanged(s, n - 1, i), Exchanged(s, n - 1, j);
      ExchangedAt(s, n - 1, i);
      ExchangedAt(s, n - 1, j);
      MixedKeeps(t, d, n - 1);
      MixedKeeps(u, e, n - 1);
      assert t[n - 1] == Mixed(t, d, n - 1)[n - 1] && u[n - 1] == Mixed(u, e, n - 1)[n - 1];
      ExchangedDistinct(s, n - 1, i);
      OrderDeterminesDraws(t, d, e, n - 1);
    }
  }

  lemma LastFound<T>(s: seq<T>, t: seq<T>, n: nat) returns (j: nat)
    requires 0 < n <= |s| == |t| && multiset(s[..n]) == multiset(t[..n])
    ensures j < n && s[j] == t[n - 1]
  {
    FrontAndLast(t[..n]);
    assert t[n - 1] in multiset(s[..n]);
    j :| 0 <= j < n && s[j] == t[n - 1];
  }

  /** Moving element j to position n - 1 takes it out of the front. */
  lemma FrontShrinks<T>(s: seq<T>, n: nat, j: nat)
    requires j < n <= |s|
    ensures multiset(s[..n]) == multiset(Exchanged(s, n - 1, j)[..n - 1]) + multiset{s[j]}
  {
    var u := Exchanged(s, n - 1, j);
    ExchangedKeeps(s[..n], n - 1, j);
    ExchangedFront(s, n, j);
    hide Exchanged;
    FrontAndLast(u[..n]);
    assert |u[..n]| == n && u[..n][n - 1] == s[j];
    FrontOfFront(u, n);
  }

  lemma FrontOfFront<T>(u: seq<T>, n: nat)
    requires 0 < n <= |u|
    ensures u[..n][..n - 1] == u[..n - 1]
  {}

  lemma ExchangedFront<T>(s: seq<T>, n: nat, j: nat)
    requires j < n <= |s|
    ensures Exchanged(s, n - 1, j)[..n] == Exchanged(s[..n], n - 1, j)
    ensures Exchanged(s, n - 1, j)[n - 1] == s[j]
  {}

  lemma FrontsAgree<T>(s: seq<T>, t: seq<T>, n: nat, j: nat)
    requires j < n <= |s| == |t| && multiset(s[..n]) == multiset(t[..n]) && s[j] == t[n - 1]
    ensures multiset(Exchanged(s, n - 1, j)[..n - 1]) == multiset(t[..n - 1])
  {
    FrontShrinks(s, n, j);
    FrontAndLast(t[..n]);
    assert t[..n][..n - 1] == t[..n - 1];
    hide Exchanged;
    assert multiset(Exchanged(s, n - 1, j)[..n - 1]) == multiset(s[..n]) - multiset{s[j]};
    assert multiset(t[..n - 1]) == multiset(s[..n]) - multiset{s[j]};
  }

  lemma FrontAndLast<T>(s: seq<T>)
    requires s != []
    ensures multiset(s) == multiset(s[..|s| - 1]) + multiset{s[|s| - 1]}
  {
    assert s == s[..|s| - 1] + [s[|s| - 1]];
  }

  /** And every order comes from some draws. */
  lemma {:induction false} EveryOrderIsDrawn<T>(s: seq<T>, t: seq<T>, n: nat) returns (draws: seq<nat>)
    requires n <= |s| == |t| && multiset(s[..n]) == multiset(t[..n])
    requires forall k :: n <= k < |s| ==> s[k] == t[k]
    ensures |draws| == |s| && Mixed(s, draws, n) == t
    decreases n
  {
    if n == 0 {
      draws := seq(|s|, i => 0);
      assert s == t;
    } else {
      var j := LastFound(s, t, n);
      var u := Exchanged(s, n - 1, j);
      FrontsAgree(s, t, n, j);
      ExchangedAt(s, n - 1, j);
      hide Exchanged, Mixed, Pick;
      var rest := EveryOrderIsDrawn(u, t, n - 1);
      draws := rest[n - 1 := j];
      DrawnFirst(s, u, t, rest, draws, n, j);
    }
  }

  lemma DrawnFirst<T>(s: seq<T>, u: seq<T>, t: seq<T>, rest: seq<nat>, draws: seq<nat>, n: nat, j: nat)
    requires 0 < n <= |s| == |rest| && j < n && draws == rest[n - 1 := j]
    requires u == Exchanged(s, n - 1, j) && Mixed(u, rest, n - 1) == t
    ensures Mixed(s, draws, n) == t
  {
    PickIs(draws, n - 1, j);
    if n == 1 {
      assert u == s;
    } else {
      hide Exchanged, Pick;
      SameTail(rest, draws, n, j);
      SameDrawsSameOrder(u, rest, draws, n - 1);
    }
  }

  lemma PickIs(draws: seq<nat>, i: nat, j: nat)
    requires i < |draws| && draws[i] == j <= i
    ensures Pick(draws, i) == j
  {}

  lemma SameTail(rest: seq<nat>, draws: seq<nat>, n: nat, j: nat)
    requires 0 < n <= |rest| && draws == rest[n - 1 := j]
    ensures SameDraws(rest, draws, n - 1)
  {
    forall i | 1 <= i < n - 1 ensures Pick(rest, i) == Pick(draws, i) {
      assert rest[i] == draws[i];
    }
  }
}
