/**
 The status board's cache tags: game actors put and remove snapshots at any time between the two looks
 a reader takes, one at the tag and one at the games. A snapshot's contents are left abstract.
 */
module StatusBoard {
  import opened Bytes

  type Snapshot = seq<Byte>
  type Games = map<U32, Snapshot>

  datatype Board = Board(games: Games, revision: nat)

  const EMPTY := Board(map[], 0)

  datatype Event = Put(host: U32, snapshot: Snapshot) | Remove(host: U32)

  function Step(b: Board, e: Event): Board {
    match e
    case Put(host, snapshot) => Board(b.games[host := snapshot], b.revision + 1)
    case Remove(host) => if host in b.games then Board(b.games - {host}, b.revision + 1) else b
  }

  function Run(b: Board, es: seq<Event>): Board {
    if es == [] then b else Step(Run(b, es[..|es| - 1]), es[|es| - 1])
  }

  /** Nothing was put or removed for the game from the i-th event on. */
  ghost predicate QuietFrom(es: seq<Event>, i: nat, host: U32) {
    forall j :: i <= j < |es| ==> es[j].host != host
  }

  lemma {:induction false} UntouchedSince(es: seq<Event>, i: nat, host: U32)
    requires i <= |es| && QuietFrom(es, i, host)
    ensures
      var before, now := Run(EMPTY, es[..i]).games, Run(EMPTY, es).games;
      (host in before <==> host in now) && (host in now ==> now[host] == before[host])
    decreases |es|
  {
    if i < |es| {
      var n := |es| - 1;
      assert es[..n][..i] == es[..i];
      UntouchedSince(es[..n], i, host);
    } else {
      assert es[..i] == es;
    }
  }

  /** The board shows of a game what was last put for it, and does not show one that was removed last or never put. */
  lemma LastWordStands(es: seq<Event>, host: U32)
    ensures forall i: nat :: i < |es| && es[i].host == host && QuietFrom(es, i + 1, host) ==>
              var games := Run(EMPTY, es).games;
              if es[i].Put? then host in games && games[host] == es[i].snapshot else host !in games
    ensures QuietFrom(es, 0, host) ==> host !in Run(EMPTY, es).games
  {
    forall i: nat | i < |es| && es[i].host == host && QuietFrom(es, i + 1, host)
      ensures var games := Run(EMPTY, es).games;
              if es[i].Put? then host in games && games[host] == es[i].snapshot else host !in games
    {
      UntouchedSince(es, i + 1, host);
      assert es[..i + 1][..i] == es[..i];
    }
    if QuietFrom(es, 0, host) { UntouchedSince(es, 0, host); }
  }

  // ---- tags ----

  function Decimal(n: nat): (s: string)
    ensures s != [] && forall i :: 0 <= i < |s| ==> '0' <= s[i] <= '9'
  {
    var digit := '0' + (n % 10) as char;
    if n < 10 then [digit] else Decimal(n / 10) + [digit]
  }

  lemma {:induction false} DecimalIsInjective(m: nat, n: nat)
    requires Decimal(m) == Decimal(n)
    ensures m == n
  {
    var s, t := Decimal(m), Decimal(n);
    assert s[|s| - 1] == t[|t| - 1];
    assert m % 10 == n % 10;
    assert m >= 10 ==> Decimal(m / 10) == s[..|s| - 1];
    assert n >= 10 ==> Decimal(n / 10) == t[..|t| - 1];
    if m >= 10 && n >= 10 { DecimalIsInjective(m / 10, n / 10); }
  }

  /** The tag of a revision; `run` stands for the bot's name and start time, fixed while the bot runs. */
  function Etag(run: string, revision: nat): string {
    "\"" + run + "-" + Decimal(revision) + "\""
  }

  lemma EtagIsInjective(run: string, m: nat, n: nat)
    requires Etag(run, m) == Etag(run, n)
    ensures m == n
  {
    var head := "\"" + run + "-";
    var s, t := Etag(run, m), Etag(run, n);
    assert s == head + Decimal(m) + "\"" && t == head + Decimal(n) + "\"";
    assert Decimal(m) == s[|head|..|s| - 1] && Decimal(n) == t[|head|..|t| - 1];
    DecimalIsInjective(m, n);
  }

  // ---- the body ----

  /** What is serialized: the games in order of their host counters. */
  ghost predicate Listing(games: Games, l: seq<(U32, Snapshot)>) {
    && (forall i, j :: 0 <= i < j < |l| ==> l[i].0 < l[j].0)
    && (forall i :: 0 <= i < |l| ==> l[i].0 in games && games[l[i].0] == l[i].1)
    && (forall h :: h in games ==> (h, games[h]) in l)
  }

  /** However the table is iterated, sorting it gives one list. */
  lemma {:induction false} ListingIsUnique(games: Games, l: seq<(U32, Snapshot)>, k: seq<(U32, Snapshot)>)
    requires Listing(games, l) && Listing(games, k)
    ensures l == k
    decreases |l|
  {
    hide Listing;
    EmptyTogether(games, l, k);
    if l != [] {
      var n, m, h := |l| - 1, |k| - 1, l[|l| - 1].0;
      LastIsLargest(games, l, k);
      LastIsLargest(games, k, l);
      WithoutLast(games, l);
      WithoutLast(games, k);
      ListingIsUnique(games - {h}, l[..n], k[..m]);
      assert l == l[..n] + [l[n]] && k == k[..m] + [k[m]];
    }
  }

  lemma EmptyTogether(games: Games, l: seq<(U32, Snapshot)>, k: seq<(U32, Snapshot)>)
    requires Listing(games, l) && Listing(games, k)
    ensures l == [] <==> k == []
  {
    assert k != [] ==> (k[0].0, games[k[0].0]) in l;
    assert l != [] ==> (l[0].0, games[l[0].0]) in k;
  }

  lemma LastIsLargest(games: Games, l: seq<(U32, Snapshot)>, k: seq<(U32, Snapshot)>)
    requires Listing(games, l) && Listing(games, k) && l != [] && k != []
    ensures k[|k| - 1].0 <= l[|l| - 1].0
    ensures k[|k| - 1].0 == l[|l| - 1].0 ==> k[|k| - 1] == l[|l| - 1]
  {
    var h := k[|k| - 1].0;
    assert (h, games[h]) in l;
    var i :| 0 <= i < |l| && l[i] == (h, games[h]);
  }

  lemma WithoutLast(games: Games, l: seq<(U32, Snapshot)>)
    requires Listing(games, l) && l != []
    ensures Listing(games - {l[|l| - 1].0}, l[..|l| - 1])
  {
    var n, h := |l| - 1, l[|l| - 1].0;
    forall g | g in games - {h} ensures (g, games[g]) in l[..n] {
      assert (g, games[g]) in l;
      var i :| 0 <= i < |l| && l[i] == (g, games[g]);
      assert l[..n][i] == l[i];
    }
  }

  // ---- tags tell the truth ----

  /** Revisions never go back, and while the revision stands so do the games. */
  lemma {:induction false} RevisionsOnlyGrow(b: Board, es: seq<Event>)
    ensures Run(b, es).revision >= b.revision
    ensures Run(b, es).revision == b.revision ==> Run(b, es) == b
  {
    if es != [] { RevisionsOnlyGrow(b, es[..|es| - 1]); }
  }

  lemma {:induction false} RunSplits(b: Board, es: seq<Event>, fs: seq<Event>)
    ensures Run(b, es + fs) == Run(Run(b, es), fs)
  {
    if fs == [] {
      assert es + fs == es;
    } else {
      RunSplits(b, es, fs[..|fs| - 1]);
      assert (es + fs)[..|es + fs| - 1] == es + fs[..|fs| - 1];
    }
  }

  /** Two answers taken at any two moments of a run: equal tags mean equal games, and so equal bodies. */
  lemma EqualTagsEqualBodies(run: string, es: seq<Event>, fs: seq<Event>,
                             l: seq<(U32, Snapshot)>, k: seq<(U32, Snapshot)>)
    requires var earlier, now := Run(EMPTY, es), Run(EMPTY, es + fs);
             && Listing(earlier.games, l) && Listing(now.games, k)
             && Etag(run, earlier.revision) == Etag(run, now.revision)
    ensures Run(EMPTY, es).games == Run(EMPTY, es + fs).games && l == k
  {
    var earlier, now := Run(EMPTY, es), Run(EMPTY, es + fs);
    EtagIsInjective(run, earlier.revision, now.revision);
    RunSplits(EMPTY, es, fs);
    RevisionsOnlyGrow(earlier, fs);
    ListingIsUnique(earlier.games, l, k);
  }

  // ---- the conditional request ----

  datatype Answer = NotModified(tag: string) | Ok(tag: string, revision: nat, games: Games)

  /** `has_current`: the entries of If-None-Match, already split and trimmed, compared weakly. */
  predicate HasCurrent(entries: seq<string>, tag: string) {
    exists i :: 0 <= i < |entries| && (entries[i] == "*" || Strong(entries[i]) == tag)
  }

  function Strong(entry: string): string {
    if |entry| >= 2 && entry[..2] == "W/" then entry[2..] else entry
  }

  /** `respond_to`: the board may change between the look at the tag and the look at the games. */
  function Answered(run: string, before: Board, after: Board, entries: seq<string>): Answer {
    if HasCurrent(entries, Etag(run, before.revision)) then NotModified(Etag(run, before.revision))
    else Ok(Etag(run, after.revision), after.revision, after.games)
  }

  /**
   A client that repeats the one tag it was given is told "not modified" exactly when the board it was
   shown is the board as it is, whatever was published in between.
   */
  lemma NotModifiedIffUnchanged(run: string, es: seq<Event>, fs: seq<Event>, after: Board)
    ensures
      var shown, now := Run(EMPTY, es), Run(EMPTY, es + fs);
      var tag := Etag(run, shown.revision);
      Answered(run, now, after, [tag]).NotModified? <==> shown == now
  {
    var shown, now := Run(EMPTY, es), Run(EMPTY, es + fs);
    var tag := Etag(run, shown.revision);
    RunSplits(EMPTY, es, fs);
    RevisionsOnlyGrow(shown, fs);
    assert tag[0] == '"' && [tag][0] == tag;
    assert Strong(tag) == tag && tag != "*";
    if Etag(run, now.revision) == tag { EtagIsInjective(run, shown.revision, now.revision); }
  }

  // ---- the board object ----

  class StatusBoard {
    var games: Games
    var revision: nat

    function State(): Board
      reads this
    {
      Board(games, revision)
    }

    constructor ()
      ensures State() == EMPTY
    {
      games, revision := map[], 0;
    }

    method PutSnapshot(host: U32, snapshot: Snapshot)
      modifies this
      ensures State() == Step(old(State()), Put(host, snapshot))
    {
      games := games[host := snapshot];
      revision := revision + 1;
    }

    method RemoveGame(host: U32)
      modifies this
      ensures State() == Step(old(State()), Remove(host))
    {
      if host in games {
        games := games - {host};
        revision := revision + 1;
      }
    }
  }
}
