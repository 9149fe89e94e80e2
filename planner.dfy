/**
 * The round-robin "wave" planner of MessagesTab.send_messages
 * (attached_assets/novint.py): contacts sorted by id are dealt one at a time
 * to the available accounts, and the dispatcher then walks the queues wave by
 * wave, one job per account per wave.
 *
 * The `batches` dict keyed by account id is a sequence of queues aligned with
 * the account order: queue j belongs to accounts[j]. The account ids come from
 * the keys of a dict, so they are distinct.
 */
module WavePlanner {
  import opened Sorting

  /** A selected contact: its id and the identifier the message goes to. */
  datatype Contact = Contact(id: int, identifier: string)

  /** One send job: the account that sends and the contact it sends to. */
  datatype Job = Job(account: int, contact: Contact)

  predicate Distinct(accounts: seq<int>) {
    forall i, j :: 0 <= i < j < |accounts| ==> accounts[i] != accounts[j]
  }

  /** sorted(selected_contacts, key=lambda x: x['id']) */
  function SortContacts(contacts: seq<Contact>): (r: seq<Contact>)
    ensures multiset(r) == multiset(contacts)
    ensures forall i, j :: 0 <= i < j < |r| ==> r[i].id <= r[j].id
  {
    SortBy(contacts, (c: Contact) => c.id)
  }

  /** The contacts at positions j, j + m, j + 2m, ... of s. */
  function Deal(s: seq<Contact>, m: nat, j: nat): seq<Contact>
    requires m > 0
    decreases |s| - j
  {
    if j >= |s| then [] else [s[j]] + Deal(s, m, j + m)
  }

  /** The planned queues: queue j receives every m-th contact starting at position j. */
  function RoundRobin(s: seq<Contact>, m: nat): (q: seq<seq<Contact>>)
    requires m > 0
    ensures |q| == m
  {
    seq(m, j requires 0 <= j < m => Deal(s, m, j))
  }

  // ---- arithmetic facts about positions j + t * m ----

  lemma DivModUnique(a: int, m: int, t: int, j: int)
    requires m > 0 && 0 <= j < m && a == t * m + j
    ensures a / m == t && a % m == j
  {
    var t', j' := a / m, a % m;
    var d := t - t';
    assert d * m == j' - j;
    assert d == 0 by {
      if d >= 1 {
        MulMono(1, d, m);
      } else if d <= -1 {
        MulMono(d, -1, m);
      }
    }
  }

  lemma MulMono(t: int, t': int, m: nat)
    requires t <= t'
    ensures t * m <= t' * m
  {
    assert t' * m - t * m == (t' - t) * m;
  }

  /** For j < m, "position n is j plus a multiple of m" is "n mod m is j". */
  lemma TurnIsMod(n: nat, m: nat, j: nat)
    requires m > 0 && j < m
    ensures (j <= n && (n - j) % m == 0) <==> n % m == j
  {
    if n % m == j {
      DivModUnique(n - j, m, n / m, 0);
    }
    if j <= n && (n - j) % m == 0 {
      DivModUnique(n, m, (n - j) / m, j);
    }
  }

  /** Subtracting m keeps the remainder. */
  lemma ModMinus(a: int, m: int)
    requires m > 0 && a >= m
    ensures (a - m) % m == a % m
  {
    DivModUnique(a, m, (a - m) / m + 1, (a - m) % m);
  }

  // ---- Deal and RoundRobin ----

  lemma RoundRobinAt(s: seq<Contact>, m: nat, j: nat)
    requires 0 <= j < m
    ensures RoundRobin(s, m)[j] == Deal(s, m, j)
  {
  }

  /** Queue j of the plan holds the contact at position j + t*m at index t, and nothing else. */
  lemma {:induction false} DealAt(s: seq<Contact>, m: nat, j: nat, t: nat)
    requires m > 0
    ensures t < |Deal(s, m, j)| <==> j + t * m < |s|
    ensures t < |Deal(s, m, j)| ==> Deal(s, m, j)[t] == s[j + t * m]
    decreases |s| - j
  {
    if j < |s| {
      if t > 0 {
        DealAt(s, m, j + m, t - 1);
        assert j + m + (t - 1) * m == j + t * m;
      }
    }
  }

  /** Appending one contact extends the sequence dealt from j exactly when it is j's turn. */
  lemma {:induction false} DealSnocFrom(s: seq<Contact>, x: Contact, m: nat, j: nat)
    requires m > 0
    ensures Deal(s + [x], m, j)
         == Deal(s, m, j) + (if j <= |s| && (|s| - j) % m == 0 then [x] else [])
    decreases |s| - j
  {
    if j < |s| {
      DealSnocFrom(s, x, m, j + m);
      if j + m <= |s| {
        ModMinus(|s| - j, m);
      } else {
        DivModUnique(|s| - j, m, 0, |s| - j);
      }
      assert (s + [x])[j] == s[j];
    } else if j == |s| {
      assert Deal(s + [x], m, j) == [x] + Deal(s + [x], m, j + m);
    }
  }

  /** Appending one contact to the input extends exactly the queue whose turn it is. */
  lemma DealSnoc(s: seq<Contact>, x: Contact, m: nat, j: nat)
    requires m > 0 && j < m
    ensures Deal(s + [x], m, j) == Deal(s, m, j) + (if |s| % m == j then [x] else [])
  {
    DealSnocFrom(s, x, m, j);
    TurnIsMod(|s|, m, j);
  }

  /** The k-th sorted contact is at index k / m of queue k mod m. */
  lemma RoundRobinHome(s: seq<Contact>, m: nat, k: nat)
    requires m > 0 && k < |s|
    ensures k % m < m && k / m < |RoundRobin(s, m)[k % m]|
    ensures RoundRobin(s, m)[k % m][k / m] == s[k]
  {
    var j, t := k % m, k / m;
    assert k == j + t * m;
    RoundRobinAt(s, m, j);
    DealAt(s, m, j, t);
  }

  /** Every entry of queue j at index t is the contact at position j + t*m. */
  lemma RoundRobinOrigin(s: seq<Contact>, m: nat, j: nat, t: nat)
    requires j < m && t < |RoundRobin(s, m)[j]|
    ensures j + t * m < |s| && RoundRobin(s, m)[j][t] == s[j + t * m]
  {
    RoundRobinAt(s, m, j);
    DealAt(s, m, j, t);
  }

  /**
   * Every contact lands in exactly one queue: each position k has its home
   * (queue k mod m, index k / m), and each queue entry comes from the one
   * position whose home it is.
   */
  lemma RoundRobinPartition(s: seq<Contact>, m: nat, j: nat, t: nat)
    requires j < m && t < |RoundRobin(s, m)[j]|
    ensures var k := j + t * m;
            k < |s| && k % m == j && k / m == t && RoundRobin(s, m)[j][t] == s[k]
  {
    RoundRobinOrigin(s, m, j, t);
    DivModUnique(j + t * m, m, t, j);
  }

  lemma {:induction false} DealLonger(s: seq<Contact>, m: nat, i: nat, j: nat)
    requires m > 0 && i < j
    ensures |Deal(s, m, j)| <= |Deal(s, m, i)|
  {
    var lj := |Deal(s, m, j)|;
    if lj > 0 {
      DealAt(s, m, j, lj - 1);
      DealAt(s, m, i, lj - 1);
    }
  }

  lemma {:induction false} DealAtMostOneMore(s: seq<Contact>, m: nat, i: nat, j: nat)
    requires m > 0 && i < j < i + m
    ensures |Deal(s, m, i)| <= |Deal(s, m, j)| + 1
  {
    var lj := |Deal(s, m, j)|;
    DealAt(s, m, j, lj);
    DealAt(s, m, i, lj + 1);
    var p := lj * m;
    assert (lj + 1) * m == p + m;
  }

  /** Earlier accounts get at least as many contacts as later ones, and at most one more. */
  lemma RoundRobinBalanced(s: seq<Contact>, m: nat, i: nat, j: nat)
    requires m > 0 && i < j < m
    ensures |RoundRobin(s, m)[j]| <= |RoundRobin(s, m)[i]| <= |RoundRobin(s, m)[j]| + 1
  {
    RoundRobinAt(s, m, i);
    RoundRobinAt(s, m, j);
    DealLonger(s, m, i, j);
    DealAtMostOneMore(s, m, i, j);
  }

  /** Queue 0 is the longest and holds ceil(n / m) contacts. */
  lemma RoundRobinFirstLength(s: seq<Contact>, m: nat)
    requires m > 0
    ensures |RoundRobin(s, m)[0]| == (|s| + m - 1) / m
  {
    RoundRobinAt(s, m, 0);
    var n, l := |s|, |Deal(s, m, 0)|;
    DealAt(s, m, 0, l);
    if l > 0 {
      DealAt(s, m, 0, l - 1);
      var p := (l - 1) * m;
      assert l * m == p + m;
      DivModUnique(n + m - 1, m, l, n + m - 1 - l * m);
    } else {
      DivModUnique(n + m - 1, m, 0, n + m - 1);
    }
  }

  /** The example of 5 contacts and 2 accounts: [c1, c3, c5] and [c2, c4]. */
  lemma ExampleFiveTwo(c1: Contact, c2: Contact, c3: Contact, c4: Contact, c5: Contact)
    ensures RoundRobin([c1, c2, c3, c4, c5], 2) == [[c1, c3, c5], [c2, c4]]
  {
    var s := [c1, c2, c3, c4, c5];
    assert Deal(s, 2, 4) == [c5];
    assert Deal(s, 2, 2) == [c3, c5];
    assert Deal(s, 2, 0) == [c1, c3, c5];
    assert Deal(s, 2, 3) == [c4];
    assert Deal(s, 2, 1) == [c2, c4];
  }

  /** Dealing the contact at position index touches only the queue of account index mod m. */
  lemma DealStep(sorted: seq<Contact>, index: nat, m: nat, j: nat)
    requires m > 0 && j < m && index < |sorted| && index % m == j
    ensures forall i :: 0 <= i < m ==>
      Deal(sorted[..index + 1], m, i)
        == Deal(sorted[..index], m, i) + (if i == j then [sorted[index]] else [])
  {
    assert sorted[..index + 1] == sorted[..index] + [sorted[index]];
    forall i | 0 <= i < m
      ensures Deal(sorted[..index + 1], m, i)
           == Deal(sorted[..index], m, i) + (if i == j then [sorted[index]] else [])
    {
      DealSnoc(sorted[..index], sorted[index], m, i);
    }
  }

  /** The j-th contact dealt in a round that starts at a multiple of m goes to account j. */
  /** Appending the contact at `index` to queue `index % m` keeps every queue equal to its deal. */
  lemma DealInto(queues: seq<seq<Contact>>, sorted: seq<Contact>, index: nat, m: nat, j: nat)
    requires m > 0 && j < m && |queues| == m && index < |sorted| && index % m == j
    requires forall i :: 0 <= i < m ==> queues[i] == Deal(sorted[..index], m, i)
    ensures var next := queues[j := queues[j] + [sorted[index]]];
            forall i :: 0 <= i < m ==> next[i] == Deal(sorted[..index + 1], m, i)
  {
    DealStep(sorted, index, m, j);
  }

  lemma Turn(start: nat, m: nat, j: nat)
    requires m > 0 && j < m && start % m == 0
    ensures (start + j) % m == j
  {
    DivModUnique(start, m, start / m, 0);
    DivModUnique(start + j, m, start / m, j);
  }

  /**
   * One round of the planning loop: starting at a multiple of m, give the
   * next contact to each account in turn until every account has had one or
   * the contacts run out.
   */
  method DealRound(sorted: seq<Contact>, m: nat, queues: seq<seq<Contact>>, start: nat)
    returns (next: seq<seq<Contact>>, index: nat)
    requires m > 0 && |queues| == m && start < |sorted| && start % m == 0
    requires forall i :: 0 <= i < m ==> queues[i] == Deal(sorted[..start], m, i)
    ensures index == Min(start + m, |sorted|) && |next| == m
    ensures forall i :: 0 <= i < m ==> next[i] == Deal(sorted[..index], m, i)
  {
    next, index := queues, start;
    var j := 0;
    while j < m && index < |sorted|
      invariant 0 <= j <= m
      invariant index == start + j <= |sorted|
      invariant |next| == m
      invariant forall i :: 0 <= i < m ==> next[i] == Deal(sorted[..index], m, i)
    {
      Turn(start, m, j);
      DealInto(next, sorted, index, m, j);
      next := next[j := next[j] + [sorted[index]]];
      index := index + 1;
      j := j + 1;
    }
  }

  /**
   * The planning loop of send_messages: one queue per available account, then
   * a cursor over the sorted contacts that deals one contact to each account
   * in turn until the contacts run out.
   */
  method PlanWaves(accounts: seq<int>, contacts: seq<Contact>) returns (queues: seq<seq<Contact>>)
    requires |accounts| > 0
    ensures queues == RoundRobin(SortContacts(contacts), |accounts|)
  {
    var m := |accounts|;
    var sorted := SortContacts(contacts);
    queues := seq(m, _ => []);
    var index := 0;
    while index < |sorted|
      invariant 0 <= index <= |sorted|
      invariant |queues| == m
      invariant index < |sorted| ==> index % m == 0
      invariant forall i :: 0 <= i < m ==> queues[i] == Deal(sorted[..index], m, i)
    {
      var start := index;
      queues, index := DealRound(sorted, m, queues, start);
      if index < |sorted| {
        ModMinus(start + m, m);
      }
    }
    assert sorted[..index] == sorted;
  }

  // ---- the waves ----

  /** max([len(q) for q in batches.values()]) if batches else 0 */
  function MaxWaves(queues: seq<seq<Contact>>): (r: nat)
    ensures forall j :: 0 <= j < |queues| ==> |queues[j]| <= r
    ensures |queues| == 0 ==> r == 0
    ensures |queues| > 0 ==> exists j :: 0 <= j < |queues| && |queues[j]| == r
  {
    if |queues| == 0 then 0
    else
      var rest := MaxWaves(queues[1..]);
      assert forall j :: 1 <= j < |queues| ==> queues[j] == queues[1..][j - 1];
      if |queues[0]| >= rest then |queues[0]| else rest
  }

  /** The number of waves of a plan is ceil(n / m): the length of the first, longest queue. */
  lemma MaxWavesOfPlan(s: seq<Contact>, m: nat)
    requires m > 0
    ensures MaxWaves(RoundRobin(s, m)) == |RoundRobin(s, m)[0]| == (|s| + m - 1) / m
  {
    var q := RoundRobin(s, m);
    RoundRobinFirstLength(s, m);
    forall j | 0 < j < m ensures |q[j]| <= |q[0]| {
      RoundRobinBalanced(s, m, 0, j);
    }
  }

  /** Wave w, accounts 0 .. j-1: the job of each account whose queue reaches index w, in account order. */
  function WaveRow(accounts: seq<int>, queues: seq<seq<Contact>>, w: nat, j: nat): seq<Job>
    requires j <= |accounts| && j <= |queues|
  {
    if j == 0 then []
    else WaveRow(accounts, queues, w, j - 1)
         + (if w < |queues[j - 1]| then [Job(accounts[j - 1], queues[j - 1][w])] else [])
  }

  /** All jobs of waves 0 .. w-1, wave after wave. */
  function Waves(accounts: seq<int>, queues: seq<seq<Contact>>, w: nat): seq<Job>
    requires |accounts| == |queues|
  {
    if w == 0 then [] else Waves(accounts, queues, w - 1) + WaveRow(accounts, queues, w - 1, |queues|)
  }

  /** The k-th sorted contact, sent by account number k mod m. */
  function InOrder(accounts: seq<int>, s: seq<Contact>): (r: seq<Job>)
    requires |accounts| > 0
    ensures |r| == |s|
  {
    seq(|s|, k requires 0 <= k < |s| => Job(accounts[k % |accounts|], s[k]))
  }

  function Min(a: int, b: int): int {
    if a <= b then a else b
  }

  /** Account j-1's w-th contact is the sorted contact number w*m + j-1, which InOrder gives to account j-1. */
  lemma RowHit(accounts: seq<int>, s: seq<Contact>, w: nat, j: nat)
    requires 0 < j <= |accounts| && w * |accounts| + j - 1 < |s|
    ensures var q := RoundRobin(s, |accounts|);
            && w < |q[j - 1]|
            && q[j - 1][w] == s[w * |accounts| + j - 1]
            && InOrder(accounts, s)[w * |accounts| + j - 1] == Job(accounts[j - 1], q[j - 1][w])
  {
    var m := |accounts|;
    var k := w * m + j - 1;
    RoundRobinAt(s, m, j - 1);
    DealAt(s, m, j - 1, w);
    DivModUnique(k, m, w, j - 1);
  }

  /** Past the end of the contacts, account j-1 has no w-th contact. */
  lemma RowMiss(s: seq<Contact>, m: nat, w: nat, j: nat)
    requires 0 < j <= m && w * m + j - 1 >= |s|
    ensures w >= |RoundRobin(s, m)[j - 1]|
  {
    RoundRobinAt(s, m, j - 1);
    DealAt(s, m, j - 1, w);
  }

  /** Wave w's first j jobs are the slice of the in-order list from w*m on, cut at the end of the contacts. */
  lemma WaveRowSlice(accounts: seq<int>, s: seq<Contact>, w: nat, j: nat)
    requires |accounts| > 0 && j <= |accounts|
    ensures var m := |accounts|;
            Min(w * m, |s|) <= Min(w * m + j, |s|)
            && WaveRow(accounts, RoundRobin(s, m), w, j)
               == InOrder(accounts, s)[Min(w * m, |s|)..Min(w * m + j, |s|)]
  {
    WaveRowFrom(accounts, s, w, w * |accounts|, j);
  }

  lemma {:induction false} WaveRowFrom(accounts: seq<int>, s: seq<Contact>, w: nat, base: nat, j: nat)
    requires |accounts| > 0 && j <= |accounts| && base == w * |accounts|
    ensures Min(base, |s|) <= Min(base + j, |s|)
            && WaveRow(accounts, RoundRobin(s, |accounts|), w, j)
               == InOrder(accounts, s)[Min(base, |s|)..Min(base + j, |s|)]
  {
    if j > 0 {
      WaveRowFrom(accounts, s, w, base, j - 1);
      var n := |s|;
      var k := base + j - 1;
      var lo := Min(base, n);
      var all := InOrder(accounts, s);
      if k < n {
        RowHit(accounts, s, w, j);
        assert all[lo..k + 1] == all[lo..k] + [all[k]];
      } else {
        RowMiss(s, |accounts|, w, j);
      }
    }
  }

  lemma WavesPrefix(accounts: seq<int>, s: seq<Contact>, w: nat)
    requires |accounts| > 0
    ensures Waves(accounts, RoundRobin(s, |accounts|), w) == InOrder(accounts, s)[..Min(w * |accounts|, |s|)]
  {
    WavesUpTo(accounts, s, w, w * |accounts|);
  }

  lemma {:induction false} WavesUpTo(accounts: seq<int>, s: seq<Contact>, w: nat, base: nat)
    requires |accounts| > 0 && base == w * |accounts|
    ensures Waves(accounts, RoundRobin(s, |accounts|), w) == InOrder(accounts, s)[..Min(base, |s|)]
  {
    var m := |accounts|;
    if w > 0 {
      assert (w - 1) * m == base - m;
      WavesUpTo(accounts, s, w - 1, base - m);
      WaveRowFrom(accounts, s, w - 1, base - m, m);
    }
  }

  /** Ceil division: (n + m - 1) / m waves of m cover n contacts. */
  lemma CeilCovers(n: nat, m: nat)
    requires m > 0
    ensures ((n + m - 1) / m) * m >= n
  {
    var c := (n + m - 1) / m;
    DivModUnique(n + m - 1, m, c, (n + m - 1) % m);
  }

  lemma WavesCover(accounts: seq<int>, s: seq<Contact>, w: nat)
    requires |accounts| > 0 && w * |accounts| >= |s|
    ensures Waves(accounts, RoundRobin(s, |accounts|), w) == InOrder(accounts, s)
  {
    WavesPrefix(accounts, s, w);
    assert InOrder(accounts, s)[..|s|] == InOrder(accounts, s);
  }

  /** The waves of a plan hold at least as many slots as there are contacts. */
  lemma PlanCovers(s: seq<Contact>, m: nat)
    requires m > 0
    ensures MaxWaves(RoundRobin(s, m)) * m >= |s|
  {
    MaxWavesOfPlan(s, m);
    CeilCovers(|s|, m);
  }

  lemma AllWaves(accounts: seq<int>, s: seq<Contact>)
    requires |accounts| > 0
    ensures var q := RoundRobin(s, |accounts|);
            Waves(accounts, q, MaxWaves(q)) == InOrder(accounts, s)
  {
    PlanCovers(s, |accounts|);
    WavesCover(accounts, s, MaxWaves(RoundRobin(s, |accounts|)));
  }

  /**
   * Walking the plan wave by wave visits the sorted contacts in order, the
   * k-th by account number k mod m: every selected contact exactly once.
   */
  lemma PlanInSortedOrder(accounts: seq<int>, contacts: seq<Contact>)
    requires |accounts| > 0
    ensures var s := SortContacts(contacts);
            var q := RoundRobin(s, |accounts|);
            Waves(accounts, q, MaxWaves(q)) == InOrder(accounts, s)
  {
    AllWaves(accounts, SortContacts(contacts));
  }

  /** The example plan's waves: {A: c1, B: c2}, {A: c3, B: c4}, {A: c5}. */
  lemma ExampleWaves(a: int, b: int, c1: Contact, c2: Contact, c3: Contact, c4: Contact, c5: Contact)
    ensures var q := [[c1, c3, c5], [c2, c4]];
            && WaveRow([a, b], q, 0, 2) == [Job(a, c1), Job(b, c2)]
            && WaveRow([a, b], q, 1, 2) == [Job(a, c3), Job(b, c4)]
            && WaveRow([a, b], q, 2, 2) == [Job(a, c5)]
            && MaxWaves(q) == 3
  {
    var q := [[c1, c3, c5], [c2, c4]];
    assert WaveRow([a, b], q, 0, 1) == [Job(a, c1)];
    assert WaveRow([a, b], q, 1, 1) == [Job(a, c3)];
    assert WaveRow([a, b], q, 2, 1) == [Job(a, c5)];
  }
}
