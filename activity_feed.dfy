/**
 * The unified activity feed (src/components/vault/UnifiedActivityFeed.tsx):
 * transaction records become activities, eight placeholder optimizer ("ai")
 * events are added at fixed minute offsets before `now`, the two lists are
 * concatenated and stably sorted newest first, and the result is projected by
 * the selected filter. `now` is a parameter instead of the wall clock.
 */
module ActivityFeed {
  import opened Wrappers
  import opened Records
  import Text
  import StableSort
  import Sequences

  /** One displayable event. `kind` is a string because a transaction's `type` is only cast. */
  datatype Activity = Activity(
    id: string,
    kind: string,
    amount: Option<real>,
    timestamp: int,
    vault: string,
    user: Option<string>,
    aiAction: Option<string>,
    aiResult: Option<string>)

  /** How many leading characters of a transaction id stand in for the user's address. */
  const UserIdLength: nat := 8

  const MillisPerMinute: int := 60_000

  // ---------------------------------------------------------------- normalisation

  /** A transaction as an activity; its `type` is carried over unchecked. */
  function FromTransaction(tx: Transaction): (a: Activity)
    ensures a.id == tx.id && a.kind == tx.kind && a.amount == Some(tx.amount)
    ensures a.timestamp == tx.timestamp && a.vault == tx.vaultName
    ensures a.user == Some(tx.id[..Text.Min(UserIdLength, |tx.id|)])
    ensures a.aiAction.None? && a.aiResult.None?
  {
    Text.SubstringPrefix(tx.id, UserIdLength);
    Activity(tx.id, tx.kind, Some(tx.amount), tx.timestamp, tx.vaultName,
             Some(Text.Substring(tx.id, 0, UserIdLength)), None, None)
  }

  /** Every transaction, in order, as an activity: nothing is dropped. */
  function Normalize(txs: seq<Transaction>): (r: seq<Activity>)
    ensures |r| == |txs|
    ensures forall i :: 0 <= i < |txs| ==> r[i] == FromTransaction(txs[i])
  {
    if txs == [] then [] else [FromTransaction(txs[0])] + Normalize(txs[1..])
  }

  /** The transaction activities; a feed that has not delivered gives none. */
  function NormalizeTransactions(transactions: Option<seq<Transaction>>): (r: seq<Activity>)
    ensures transactions.None? ==> r == []
    ensures transactions.Some? ==> r == Normalize(transactions.value)
  {
    match transactions
    case None => []
    case Some(txs) => Normalize(txs)
  }

  /** A record whose type is neither deposit nor withdraw still yields one activity of that type. */
  lemma UnknownTypeIsKept(tx: Transaction)
    requires tx.kind != "deposit" && tx.kind != "withdraw"
    ensures var r := NormalizeTransactions(Some([tx]));
            |r| == 1 && r[0].kind == tx.kind && r[0].id == tx.id
  {
  }

  // ---------------------------------------------------------------- synthetic optimizer events

  /** How many minutes before `now` each of the eight optimizer events is placed. */
  const AiMinutesAgo: seq<nat> := [2, 5, 8, 15, 22, 37, 48, 67]

  /** The ids, vaults, actions and results of the eight events, in list order. */
  const AiIds: seq<string> := ["ai-1", "ai-2", "ai-3", "ai-4", "ai-5", "ai-6", "ai-7", "ai-8"]
  const AiVaults: seq<string> :=
    ["DEEP-SUI", "CETUS-SUI", "SUI-USDC", "DEEP-SUI", "SUI-USDC", "CETUS-SUI", "DEEP-SUI", "SUI-USDC"]
  const AiActions: seq<string> :=
    ["Optimized position range", "Rebalanced LP positions", "Modified fee tier allocation",
     "Adjusted impermanent loss parameters", "Executed price protection strategy",
     "Dynamic fee recalibration", "Price volatility analysis", "Market sentiment adjustment"]
  const AiResults: seq<string> :=
    ["+0.4% APR", "$240 fees captured", "Reduced slippage", "Risk -9%",
     "Protected $15K assets", "+5.2% efficiency", "Position shift initiated", "Strategy updated"]

  /** Event `i` of the list, stamped `60000 * minutesAgo` milliseconds before `now`. */
  function AiEvent(now: int, i: int): Activity
    requires 0 <= i < 8
  {
    Activity(AiIds[i], "ai", None, now - MillisPerMinute * AiMinutesAgo[i], AiVaults[i],
             None, Some(AiActions[i]), Some(AiResults[i]))
  }

  /** The fixed placeholder feed of optimizer events, newest first, all in the past. */
  function AiActivities(now: int): (r: seq<Activity>)
    ensures |r| == |AiMinutesAgo| == 8
    ensures forall i :: 0 <= i < |r| ==>
              r[i].kind == "ai"
              && r[i].timestamp == now - MillisPerMinute * AiMinutesAgo[i]
              && r[i].amount.None? && r[i].user.None? && r[i].aiAction.Some? && r[i].aiResult.Some?
    ensures forall i, j :: 0 <= i < j < |r| ==> r[i].timestamp > r[j].timestamp
    ensures forall i :: 0 <= i < |r| ==> r[i].timestamp < now
  {
    seq(8, i requires 0 <= i < 8 => AiEvent(now, i))
  }

  /** The optimizer events are numbered `ai-1` to `ai-8` in list order. */
  lemma AiActivityIds(now: int)
    ensures var r := AiActivities(now);
            forall i :: 0 <= i < |r| ==> r[i].id == "ai-" + Text.NatToDecimal(i + 1)
  {
    var r := AiActivities(now);
    forall i | 0 <= i < |r|
      ensures r[i].id == "ai-" + Text.NatToDecimal(i + 1)
    {
      assert r[i].id == AiIds[i];
      assert Text.NatToDecimal(i + 1) == [Text.DigitChar(i + 1)];
    }
  }

  // ---------------------------------------------------------------- merge and sort

  /** The comparator `b.timestamp - a.timestamp` is at most zero: `a` may come first. */
  predicate NewerOrSame(a: Activity, b: Activity) {
    a.timestamp >= b.timestamp
  }

  predicate NewestFirst(s: seq<Activity>) {
    forall i, j :: 0 <= i < j < |s| ==> s[i].timestamp >= s[j].timestamp
  }

  /** The activities of `s` stamped exactly `t`, in their order in `s`. */
  function AtTime(s: seq<Activity>, t: int): seq<Activity> {
    if s == [] then [] else (if s[0].timestamp == t then [s[0]] else []) + AtTime(s[1..], t)
  }

  /** `[...txActivities, ...aiActivities].sort(...)`. */
  function MergeActivities(txActivities: seq<Activity>, aiActivities: seq<Activity>): (r: seq<Activity>)
    ensures multiset(r) == multiset(txActivities + aiActivities)
    ensures |r| == |txActivities| + |aiActivities|
  {
    StableSort.SortBy(txActivities + aiActivities, NewerOrSame)
  }

  /** The list the effect stores for the given transaction feed and instant. */
  function BuildFeed(transactions: Option<seq<Transaction>>, now: int): (r: seq<Activity>)
    ensures |r| == |NormalizeTransactions(transactions)| + 8
    ensures multiset(r) == multiset(NormalizeTransactions(transactions) + AiActivities(now))
  {
    MergeActivities(NormalizeTransactions(transactions), AiActivities(now))
  }

  lemma NewerOrSameIsTotalPreorder()
    ensures StableSort.IsTotalPreorder(NewerOrSame)
  {
  }

  lemma {:induction false} TiesAreAtTime(s: seq<Activity>, e: Activity)
    ensures StableSort.Ties(s, NewerOrSame, e) == AtTime(s, e.timestamp)
  {
    if s != [] {
      TiesAreAtTime(s[1..], e);
    }
  }

  /** The merged list is a permutation of the concatenation, newest first, and
      activities with equal timestamps stay in concatenation order. */
  lemma MergeIsStableOrderedPermutation(txActivities: seq<Activity>, aiActivities: seq<Activity>)
    ensures var r := MergeActivities(txActivities, aiActivities);
            multiset(r) == multiset(txActivities + aiActivities)
            && |r| == |txActivities| + |aiActivities|
            && NewestFirst(r)
            && forall t :: AtTime(r, t) == AtTime(txActivities + aiActivities, t)
  {
    var s := txActivities + aiActivities;
    var r := MergeActivities(txActivities, aiActivities);
    NewerOrSameIsTotalPreorder();
    StableSort.SortBySorted(s, NewerOrSame);
    assert StableSort.SortedBy(r, NewerOrSame);
    forall i, j | 0 <= i < j < |r|
      ensures r[i].timestamp >= r[j].timestamp
    {
      assert NewerOrSame(r[i], r[j]);
    }
    forall t
      ensures AtTime(r, t) == AtTime(s, t)
    {
      var e := Activity([], [], None, t, [], None, None, None);
      StableSort.SortByStable(s, NewerOrSame, e);
      TiesAreAtTime(r, e);
      TiesAreAtTime(s, e);
    }
  }

  /** Every activity of the feed carries a timestamp no later than the first one's. */
  lemma NewestFirstHead(r: seq<Activity>, x: Activity)
    requires NewestFirst(r) && x in r
    ensures r[0].timestamp >= x.timestamp
  {
    var k :| 0 <= k < |r| && r[k] == x;
    if k > 0 {
      assert r[0].timestamp >= r[k].timestamp;
    }
  }

  /** With the feed delivered, the list holds every transaction activity and the
      eight optimizer events, newest first; the first entry is the newest of all. */
  lemma FeedShape(txs: seq<Transaction>, now: int)
    ensures var r := BuildFeed(Some(txs), now);
            |r| == |txs| + 8
            && multiset(r) == multiset(Normalize(txs) + AiActivities(now))
            && NewestFirst(r)
            && forall x :: x in Normalize(txs) + AiActivities(now) ==> r[0].timestamp >= x.timestamp
  {
    var s := Normalize(txs) + AiActivities(now);
    var r := BuildFeed(Some(txs), now);
    MergeIsStableOrderedPermutation(Normalize(txs), AiActivities(now));
    forall x | x in s
      ensures r[0].timestamp >= x.timestamp
    {
      assert x in multiset(s);
      assert x in r;
      NewestFirstHead(r, x);
    }
  }

  /** Whatever the transaction feed delivered, the list is newest first. */
  lemma FeedIsNewestFirst(transactions: Option<seq<Transaction>>, now: int)
    ensures NewestFirst(BuildFeed(transactions, now))
  {
    MergeIsStableOrderedPermutation(NormalizeTransactions(transactions), AiActivities(now));
  }

  /** Without a transaction feed the list is exactly the optimizer events, in their given order. */
  lemma FeedWithoutTransactions(now: int)
    ensures BuildFeed(None, now) == AiActivities(now)
  {
    var ai := AiActivities(now);
    assert [] + ai == ai;
    assert StableSort.SortedBy(ai, NewerOrSame);
    StableSort.SortBySortedIdentity(ai, NewerOrSame);
  }

  lemma {:induction false} AtTimeConcat(a: seq<Activity>, b: seq<Activity>, t: int)
    ensures AtTime(a + b, t) == AtTime(a, t) + AtTime(b, t)
  {
    if a == [] {
      assert a + b == b;
    } else {
      assert (a + b)[0] == a[0] && (a + b)[1..] == a[1..] + b;
      AtTimeConcat(a[1..], b, t);
    }
  }

  /** The first element of a list is the first of those stamped like it. */
  lemma AtTimeOfHead(r: seq<Activity>)
    requires r != []
    ensures AtTime(r, r[0].timestamp) != [] && AtTime(r, r[0].timestamp)[0] == r[0]
  {
  }

  /** The head of the merged list is the earliest-inserted activity among those stamped like it. */
  lemma MergeHead(txActivities: seq<Activity>, aiActivities: seq<Activity>)
    requires txActivities + aiActivities != []
    ensures var r := MergeActivities(txActivities, aiActivities);
            r != [] && r[0] in txActivities + aiActivities
            && AtTime(txActivities + aiActivities, r[0].timestamp) != []
            && r[0] == AtTime(txActivities + aiActivities, r[0].timestamp)[0]
  {
    var r := MergeActivities(txActivities, aiActivities);
    MergeIsStableOrderedPermutation(txActivities, aiActivities);
    assert r[0] in multiset(r);
    AtTimeOfHead(r);
  }

  /** One activity merged before a list whose first entry is strictly its newest: the merged
      list starts with the single activity exactly when it is at least as recent. */
  lemma MergeOneHead(a: Activity, ai: seq<Activity>)
    requires ai != [] && forall j :: 0 < j < |ai| ==> ai[0].timestamp > ai[j].timestamp
    ensures var r := MergeActivities([a], ai);
            |r| == 1 + |ai| && r[0] == if a.timestamp >= ai[0].timestamp then a else ai[0]
  {
    var s := [a] + ai;
    var r := MergeActivities([a], ai);
    MergeIsStableOrderedPermutation([a], ai);
    MergeHead([a], ai);
    var t := r[0].timestamp;
    assert a in r && ai[0] in r by {
      assert a in multiset(s) && ai[0] in multiset(s);
    }
    NewestFirstHead(r, a);
    NewestFirstHead(r, ai[0]);
    AtTimeConcat([a], ai, t);
    assert r[0] == a || r[0] in ai;
    if r[0] != a {
      var k :| 0 <= k < |ai| && ai[k] == r[0];
      assert k == 0 || ai[0].timestamp > ai[k].timestamp;
    }
    if a.timestamp >= ai[0].timestamp {
      assert t == a.timestamp;
      assert AtTime([a], t) == [a];
    } else {
      assert t == ai[0].timestamp;
      assert AtTime([a], t) == [];
      assert AtTime(ai, t)[0] == ai[0];
    }
  }

  /** One transaction and the optimizer events: nine entries, led by the transaction when it
      is at least as recent as the newest optimizer event (equal timestamps keep it first),
      and by that event otherwise. */
  lemma SingleTransactionScenario(tx: Transaction, now: int)
    ensures var r := BuildFeed(Some([tx]), now);
            |r| == 9
            && (tx.timestamp >= now - 2 * MillisPerMinute ==> r[0] == FromTransaction(tx))
            && (tx.timestamp < now - 2 * MillisPerMinute ==> r[0] == AiActivities(now)[0])
  {
    var ai := AiActivities(now);
    assert Normalize([tx]) == [FromTransaction(tx)];
    MergeOneHead(FromTransaction(tx), ai);
  }

  // ---------------------------------------------------------------- filter

  datatype FilterMode = All | User | Ai

  /** Whether the filter `mode` shows activity `a`. */
  predicate Shows(mode: FilterMode, a: Activity) {
    match mode
    case All => true
    case User => a.kind == "deposit" || a.kind == "withdraw"
    case Ai => a.kind == "ai"
  }

  /** `activities.filter(...)`: exactly the shown activities, each as often as in `s`, in order. */
  function Project(s: seq<Activity>, mode: FilterMode): (r: seq<Activity>)
    ensures Sequences.IsSubsequence(r, s)
    ensures forall x :: x in r ==> Shows(mode, x)
    ensures forall x :: multiset(r)[x] == if Shows(mode, x) then multiset(s)[x] else 0
  {
    if s == [] then []
    else
      assert s == [s[0]] + s[1..];
      var rest := Project(s[1..], mode);
      if Shows(mode, s[0]) then
        assert ([s[0]] + rest)[1..] == rest;
        [s[0]] + rest
      else
        rest
  }

  lemma {:induction false} ProjectAllIsIdentity(s: seq<Activity>)
    ensures Project(s, All) == s
  {
    if s != [] {
      ProjectAllIsIdentity(s[1..]);
      assert s == [s[0]] + s[1..];
    }
  }

  /** The filter keeps every activity it shows. */
  lemma ProjectKeepsShown(s: seq<Activity>, mode: FilterMode)
    ensures forall x :: x in s && Shows(mode, x) ==> x in Project(s, mode)
  {
    forall x | x in s && Shows(mode, x)
      ensures x in Project(s, mode)
    {
      assert x in multiset(s);
      assert x in multiset(Project(s, mode));
    }
  }

  /** The three types the transaction feed and the optimizer events are meant to use. */
  predicate IsKnownKind(kind: string) {
    kind == "deposit" || kind == "withdraw" || kind == "ai"
  }

  /** Filtering a list with a given first element. */
  lemma ProjectCons(h: Activity, t: seq<Activity>, mode: FilterMode)
    ensures Project([h] + t, mode) == if Shows(mode, h) then [h] + Project(t, mode) else Project(t, mode)
  {
    assert ([h] + t)[0] == h && ([h] + t)[1..] == t;
  }

  /** Adding `h` in front of one of two lists adds it once to their combined contents. */
  lemma ConsGoesToOne(h: Activity, u: seq<Activity>, a: seq<Activity>, u': seq<Activity>, a': seq<Activity>)
    requires (u' == [h] + u && a' == a) || (u' == u && a' == [h] + a)
    ensures multiset(u') + multiset(a') == multiset{h} + (multiset(u) + multiset(a))
  {
  }

  /** One activity of a known type goes to exactly one of the user and ai views. */
  lemma UserAndAiStep(h: Activity, t: seq<Activity>)
    requires IsKnownKind(h.kind)
    ensures multiset(Project([h] + t, User)) + multiset(Project([h] + t, Ai))
            == multiset{h} + (multiset(Project(t, User)) + multiset(Project(t, Ai)))
  {
    ProjectCons(h, t, User);
    ProjectCons(h, t, Ai);
    assert Shows(User, h) != Shows(Ai, h);
    ConsGoesToOne(h, Project(t, User), Project(t, Ai), Project([h] + t, User), Project([h] + t, Ai));
  }

  lemma {:induction false} UserAndAiCover(s: seq<Activity>)
    requires forall x :: x in s ==> IsKnownKind(x.kind)
    ensures multiset(Project(s, User)) + multiset(Project(s, Ai)) == multiset(s)
  {
    if s != [] {
      var h, t := s[0], s[1..];
      assert s == [h] + t;
      UserAndAiCover(t);
      UserAndAiStep(h, t);
    }
  }

  /** When every type is deposit, withdraw or ai, the user and ai views split the list:
      nothing is in both, and together they hold every activity as often as it occurs. */
  lemma UserAndAiPartition(s: seq<Activity>)
    requires forall x :: x in s ==> IsKnownKind(x.kind)
    ensures multiset(Project(s, User)) + multiset(Project(s, Ai)) == multiset(s)
    ensures forall x :: !(x in Project(s, User) && x in Project(s, Ai))
  {
    UserAndAiCover(s);
  }

  // ---------------------------------------------------------------- elapsed time

  /** The largest unit of `getTimeAgo` and its count. */
  datatype Elapsed = Seconds(n: int) | Minutes(n: int) | Hours(n: int) | Days(n: int)

  /** `getTimeAgo`: whole seconds since `timestamp`, floored, then minutes, hours and days. */
  function TimeAgo(now: int, timestamp: int): (e: Elapsed)
    ensures var d := now - timestamp;
            (e.Seconds? <==> d < 60_000)
            && (e.Seconds? ==> e.n * 1000 <= d < (e.n + 1) * 1000)
            && (e.Minutes? ==> 1 <= e.n < 60 && e.n * 60_000 <= d < (e.n + 1) * 60_000)
            && (e.Hours? ==> 1 <= e.n < 24 && e.n * 3_600_000 <= d < (e.n + 1) * 3_600_000)
            && (e.Days? ==> 1 <= e.n && e.n * 86_400_000 <= d < (e.n + 1) * 86_400_000)
  {
    var seconds := (now - timestamp) / 1000;
    if seconds < 60 then Seconds(seconds)
    else
      var minutes := seconds / 60;
      if minutes < 60 then Minutes(minutes)
      else
        var hours := minutes / 60;
        if hours < 24 then Hours(hours)
        else Days(hours / 24)
  }

  function UnitSuffix(e: Elapsed): char {
    match e
    case Seconds(_) => 's'
    case Minutes(_) => 'm'
    case Hours(_) => 'h'
    case Days(_) => 'd'
  }

  /** The label text, such as "37m". */
  function TimeAgoLabel(now: int, timestamp: int): (r: string)
    ensures |r| >= 2 && r[|r| - 1] == UnitSuffix(TimeAgo(now, timestamp))
    ensures r[0] == '-' <==> timestamp > now
  {
    var e := TimeAgo(now, timestamp);
    Text.IntToDecimal(e.n) + [UnitSuffix(e)]
  }

  /** The label ends in its unit letter and its numeral reads back as the count. */
  lemma TimeAgoLabelReadsBack(now: int, timestamp: int)
    ensures var e, l := TimeAgo(now, timestamp), TimeAgoLabel(now, timestamp);
            |l| >= 2 && l[|l| - 1] == UnitSuffix(e)
            && (l[0] == '-' || Text.IsDigit(l[0])) && (forall k :: 1 <= k < |l| - 1 ==> Text.IsDigit(l[k]))
            && Text.SignedDecimalValue(l[..|l| - 1]) == e.n
  {
    var e, l := TimeAgo(now, timestamp), TimeAgoLabel(now, timestamp);
    Text.IntToDecimalRoundTrip(e.n);
    assert l[..|l| - 1] == Text.IntToDecimal(e.n);
  }

  // ---------------------------------------------------------------- component state

  /** The component's `activities` and `filterType` state. */
  class Feed {
    var activities: seq<Activity>
    var filterType: FilterMode

    constructor ()
      ensures activities == [] && filterType == All
    {
      activities := [];
      filterType := All;
    }

    /** The effect run whenever the transaction query delivers: the list is rebuilt wholesale. */
    method Refresh(transactions: Option<seq<Transaction>>, now: int)
      modifies this
      ensures activities == BuildFeed(transactions, now)
      ensures NewestFirst(activities)
      ensures filterType == old(filterType)
    {
      var txActivities := NormalizeTransactions(transactions);
      var aiActivities := AiActivities(now);
      activities := MergeActivities(txActivities, aiActivities);
      FeedIsNewestFirst(transactions, now);
    }

    /** A click on one of the three filter buttons. */
    method SetFilterType(mode: FilterMode)
      modifies this
      ensures filterType == mode && activities == old(activities)
    {
      filterType := mode;
    }

    /** `filteredActivities`: the shown part of the list, never re-sorted. */
    function FilteredActivities(): (r: seq<Activity>)
      reads this
      ensures Sequences.IsSubsequence(r, activities)
      ensures forall x :: x in r ==> Shows(filterType, x)
      ensures forall x :: x in activities && Shows(filterType, x) ==> x in r
      ensures filterType == All ==> r == activities
    {
      ProjectAllIsIdentity(activities);
      ProjectKeepsShown(activities, filterType);
      Project(activities, filterType)
    }
  }
}
