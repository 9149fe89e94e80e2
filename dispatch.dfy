/**
 * The wave dispatcher of MessagesTab.send_messages (attached_assets/novint.py)
 * and the two database helpers it relies on, record_sent_message and
 * update_account_timestamp.
 *
 * The dispatcher runs on an integer clock in milliseconds. It advances only
 * by the sleeps the code performs (the throttle wait, the flood wait) and by
 * the time each call of the send primitive takes. The send primitive is an
 * oracle: attempt number k (counted from 0 over the whole campaign) has the
 * outcome send(k). Database rows keep whole seconds, clock / 1000.
 */
module Dispatch {
  import opened Wrappers
  import opened Text
  import opened Throttle
  import opened WavePlanner
  import opened Registry

  /** The status column of sent_messages, as the dispatcher writes it. */
  datatype Status = Sent | Failed

  /** A row of sent_messages; `sentAt` is its timestamp in whole seconds. */
  datatype Record = Record(account: int, contact: int, message: int, status: Status, sentAt: int)

  /** The answer of send_message_sync: success, or the error text. */
  datatype SendResult = Delivered | Error(text: string)

  /** One call of the send primitive: its answer and how long it took. */
  datatype Attempt = Attempt(result: SendResult, tookMs: nat)

  /** The dispatcher's local state: the clock, the attempts made so far and the three counters. */
  datatype Tally = Tally(clock: int, attempts: nat, success: nat, fail: nat, total: nat)

  /** Everything a campaign changes: the stamps table, the sent_messages rows and the tally. */
  datatype Run = Run(stamps: map<int, StoredStamp>, sent: seq<Record>, tally: Tally)

  /** Why send_messages stops before sending anything. */
  datatype CampaignError = NoText | NoContacts | NoAccounts

  /** The longest flood wait that is actually slept, in seconds. */
  const FloodCap := 120

  /** get_account_last_sent over the stamps table. */
  function StampRead(stamps: map<int, StoredStamp>, account: int): (r: DbRead<StoredStamp>)
    ensures r.Row? <==> account in stamps
    ensures r.Row? ==> r.value == stamps[account]
  {
    if account in stamps then Row(stamps[account]) else NoRow
  }

  // ---- recognising a flood-wait error ----

  /** 'flood' in error.lower() and 'wait' in error.lower() */
  predicate IsFlood(error: string) {
    Contains(Lower(error), "flood") && Contains(Lower(error), "wait")
  }

  predicate NoDigits(s: string) {
    forall i :: 0 <= i < |s| ==> !IsDigit(s[i])
  }

  predicate AllDigits(s: string) {
    forall i :: 0 <= i < |s| ==> IsDigit(s[i])
  }

  /** The index of the first digit of s, or |s| when there is none. */
  function FirstDigit(s: string): (k: nat)
    ensures k <= |s|
    ensures NoDigits(s[..k])
    ensures k < |s| ==> IsDigit(s[k])
  {
    if s == [] || IsDigit(s[0]) then 0
    else
      var k := 1 + FirstDigit(s[1..]);
      assert forall i :: 1 <= i < k ==> s[i] == s[1..][..k - 1][i - 1];
      k
  }

  /** The length of the run of digits at the start of s. */
  function DigitRun(s: string): (n: nat)
    ensures n <= |s|
    ensures AllDigits(s[..n])
    ensures n < |s| ==> !IsDigit(s[n])
  {
    if s != [] && IsDigit(s[0]) then
      var n := 1 + DigitRun(s[1..]);
      assert forall i :: 1 <= i < n ==> s[i] == s[1..][..n - 1][i - 1];
      n
    else 0
  }

  /**
   * re.search(r'(\d+)', error) followed by int(): the value of the first
   * maximal run of digits in the text, or None when it has no digit.
   */
  function FirstNumber(s: string): (r: Option<nat>)
    ensures r.None? <==> NoDigits(s)
    ensures r.Some? ==>
              var k := FirstDigit(s);
              var n := DigitRun(s[k..]);
              && n >= 1 && k + n <= |s|
              && NoDigits(s[..k]) && AllDigits(s[k..k + n])
              && (k + n == |s| || !IsDigit(s[k + n]))
              && r.value == DigitsValue(s[k..k + n])
  {
    var k := FirstDigit(s);
    if k == |s| then
      assert s[..k] == s;
      None
    else
      var n := DigitRun(s[k..]);
      assert s[k..][..n] == s[k..k + n];
      assert !NoDigits(s) by { assert IsDigit(s[k]); }
      Some(DigitsValue(s[k..k + n]))
  }

  // ---- one job ----

  /** A successful send at `now`: a 'sent' row plus a new stamp; `counted` says whether total_sent grows. */
  function Succeed(st: Run, job: Job, message: int, now: int, attempts: nat, counted: bool): (r: Run)
    ensures r.sent == st.sent + [Record(job.account, job.contact.id, message, Sent, now / 1000)]
    ensures r.stamps == st.stamps[job.account := Stamp(now / 1000)]
  {
    Run(st.stamps[job.account := Stamp(now / 1000)],
        st.sent + [Record(job.account, job.contact.id, message, Sent, now / 1000)],
        Tally(now, attempts, st.tally.success + 1, st.tally.fail,
              st.tally.total + (if counted then 1 else 0)))
  }

  /** A failed send at `now`: a 'failed' row and no new stamp. */
  function Fail(st: Run, job: Job, message: int, now: int, attempts: nat): (r: Run)
    ensures r.sent == st.sent + [Record(job.account, job.contact.id, message, Failed, now / 1000)]
    ensures r.stamps == st.stamps
  {
    Run(st.stamps,
        st.sent + [Record(job.account, job.contact.id, message, Failed, now / 1000)],
        Tally(now, attempts, st.tally.success, st.tally.fail + 1, st.tally.total + 1))
  }

  lemma FloorAtLeast(now: int, x: int)
    ensures now >= x * 1000 ==> now / 1000 >= x
  {
  }

  lemma FloorMono(a: int, b: int)
    requires a <= b
    ensures a / 1000 <= b / 1000
  {
  }

  /** How one job ends: delivered or not, at what time, after how many attempts, and whether total_sent counts it. */
  datatype Outcome = Outcome(delivered: bool, now: int, attempts: nat, counted: bool)

  /**
   * The timing of one job whose account row was found: wait out the
   * throttle, send, and on a flood-wait error that carries a number sleep
   * at most FloodCap seconds and send once more.
   */
  function Ready(delay: int, stamp: DbRead<StoredStamp>, clock: int): (ready: int)
    ensures ready >= clock
    ensures stamp.Row? && stamp.value.Stamp? ==> ready >= (stamp.value.seconds + delay) * 1000
  {
    var v := CheckAccountDelay(Row(delay), stamp, clock);
    if v.canSend then clock else clock + v.waitSeconds * 1000
  }

  function Resolve(delay: int, stamp: DbRead<StoredStamp>, send: nat -> Attempt, t: Tally): (o: Outcome)
    ensures o.now >= t.clock
    ensures t.attempts + 1 <= o.attempts <= t.attempts + 2
    // only a success after the retry goes uncounted in total_sent
    ensures !o.counted ==> o.delivered && o.attempts == t.attempts + 2
    // a delivery happens no earlier than the delay after the stamp allows
    ensures o.delivered && stamp.Row? && stamp.value.Stamp? ==> o.now >= (stamp.value.seconds + delay) * 1000
  {
    var first := send(t.attempts);
    var t1 := Ready(delay, stamp, t.clock) + first.tookMs;
    if first.result.Delivered? then Outcome(true, t1, t.attempts + 1, true)
    else AfterError(first.result.text, send, t1, t.attempts + 1)
  }

  /**
   * A first attempt failed with `error` at `now`: a flood-wait error that
   * carries a number is retried once after min(number, FloodCap) seconds;
   * any other error ends the job as failed.
   */
  function AfterError(error: string, send: nat -> Attempt, now: int, attempts: nat): (o: Outcome)
    ensures o.now >= now
    ensures attempts <= o.attempts <= attempts + 1
    ensures o.delivered ==> o.attempts == attempts + 1
    ensures !o.counted ==> o.delivered
  {
    var wait := FirstNumber(error);
    if IsFlood(error) && wait.Some? then
      var second := send(attempts);
      Outcome(second.result.Delivered?, now + Min(wait.value, FloodCap) * 1000 + second.tookMs,
              attempts + 1, !second.result.Delivered?)
    else Outcome(false, now, attempts, true)
  }

  /** A delivered first attempt ends the job, counted, at the throttle's time plus the send's. */
  lemma FirstDelivered(delay: int, stamp: DbRead<StoredStamp>, send: nat -> Attempt, t: Tally)
    requires send(t.attempts).result.Delivered?
    ensures Resolve(delay, stamp, send, t)
            == Outcome(true, Ready(delay, stamp, t.clock) + send(t.attempts).tookMs, t.attempts + 1, true)
  {
  }

  /** A failed first attempt is handled by the error branch, at the time the attempt returned. */
  lemma FirstFailed(delay: int, stamp: DbRead<StoredStamp>, send: nat -> Attempt, t: Tally)
    requires send(t.attempts).result.Error?
    ensures Resolve(delay, stamp, send, t)
            == AfterError(send(t.attempts).result.text, send,
                          Ready(delay, stamp, t.clock) + send(t.attempts).tookMs, t.attempts + 1)
  {
  }

  /** The flood path: exactly one retry after min(n, FloodCap) seconds, whose answer decides the job. */
  lemma FloodRetry(error: string, send: nat -> Attempt, now: int, attempts: nat, n: nat)
    requires IsFlood(error) && FirstNumber(error) == Some(n)
    ensures var o := AfterError(error, send, now, attempts);
            && o.attempts == attempts + 1
            && o.delivered == send(attempts).result.Delivered?
            && o.counted == !o.delivered
            && o.now == now + Min(n, FloodCap) * 1000 + send(attempts).tookMs
  {
  }

  /** Any other error ends the job at once, failed and counted. */
  lemma NoRetry(error: string, send: nat -> Attempt, now: int, attempts: nat)
    requires !IsFlood(error) || FirstNumber(error).None?
    ensures AfterError(error, send, now, attempts) == Outcome(false, now, attempts, true)
  {
  }

  /** Write the outcome of a job: a 'sent' row and a stamp, or a 'failed' row. */
  function Apply(st: Run, job: Job, message: int, o: Outcome): Run {
    if o.delivered then Succeed(st, job, message, o.now, o.attempts, o.counted)
    else Fail(st, job, message, o.now, o.attempts)
  }

  /** One job whose account row was found. */
  function Attend(delay: int, send: nat -> Attempt, message: int, st: Run, job: Job): (r: Run)
    // exactly one row, for this job, at the time the dispatcher is left at
    ensures |r.sent| == |st.sent| + 1 && r.sent[..|st.sent|] == st.sent
    ensures var rec := r.sent[|st.sent|];
            && rec.account == job.account && rec.contact == job.contact.id && rec.message == message
            && rec.sentAt == r.tally.clock / 1000
            // the stamp moves exactly when the row says 'sent'
            && r.stamps == (if rec.status == Sent then st.stamps[job.account := Stamp(rec.sentAt)] else st.stamps)
            // a 'sent' row respects the delay since the previous stamp
            && (rec.status == Sent && job.account in st.stamps && st.stamps[job.account].Stamp? ==>
                  rec.sentAt >= st.stamps[job.account].seconds + delay)
            // the counters follow the row
            && r.tally.success == st.tally.success + (if rec.status == Sent then 1 else 0)
            && r.tally.fail == st.tally.fail + (if rec.status == Failed then 1 else 0)
    ensures r.tally.clock >= st.tally.clock
    ensures st.tally.attempts + 1 <= r.tally.attempts <= st.tally.attempts + 2
    ensures r.tally.total == st.tally.total || r.tally.total == st.tally.total + 1
  {
    var o := Resolve(delay, StampRead(st.stamps, job.account), send, st.tally);
    var prev := if job.account in st.stamps && st.stamps[job.account].Stamp? then st.stamps[job.account].seconds else 0;
    FloorMono(st.tally.clock, o.now);
    FloorAtLeast(o.now, prev + delay);
    Apply(st, job, message, o)
  }

  /** One job of a wave: an account without a row in the accounts table is skipped untouched. */
  function Step(delays: map<int, int>, send: nat -> Attempt, message: int, st: Run, job: Job): Run {
    if job.account !in delays then st else Attend(delays[job.account], send, message, st, job)
  }

  /** A job whose account has a row: the outcome of its attempts, written to the state. */
  lemma StepResolves(delays: map<int, int>, send: nat -> Attempt, message: int, st: Run, job: Job)
    requires job.account in delays
    ensures Step(delays, send, message, st, job)
            == Apply(st, job, message, Resolve(delays[job.account], StampRead(st.stamps, job.account), send, st.tally))
  {
  }

  /** The state after the jobs, in order. */
  function RunJobs(delays: map<int, int>, send: nat -> Attempt, message: int, st: Run, jobs: seq<Job>): Run
    decreases |jobs|
  {
    if jobs == [] then st
    else Step(delays, send, message, RunJobs(delays, send, message, st, jobs[..|jobs| - 1]), jobs[|jobs| - 1])
  }

  lemma RunSnoc(delays: map<int, int>, send: nat -> Attempt, message: int, st: Run, jobs: seq<Job>, job: Job)
    ensures RunJobs(delays, send, message, st, jobs + [job])
            == Step(delays, send, message, RunJobs(delays, send, message, st, jobs), job)
  {
    assert (jobs + [job])[..|jobs|] == jobs;
  }

  /** Running two job lists one after the other is running their concatenation. */
  lemma {:induction false} RunAppend(delays: map<int, int>, send: nat -> Attempt, message: int, st: Run, a: seq<Job>, b: seq<Job>)
    ensures RunJobs(delays, send, message, st, a + b)
            == RunJobs(delays, send, message, RunJobs(delays, send, message, st, a), b)
  {
    if b == [] {
      assert a + b == a;
    } else {
      var b' := b[..|b| - 1];
      RunAppend(delays, send, message, st, a, b');
      assert (a + b)[..|a + b| - 1] == a + b';
    }
  }

  // ---- what a run does ----

  /** The (account, contact) pairs of the rows. */
  function Pairs(recs: seq<Record>): (r: seq<(int, int)>)
    ensures |r| == |recs|
    ensures forall i :: 0 <= i < |recs| ==> r[i] == (recs[i].account, recs[i].contact)
  {
    seq(|recs|, i requires 0 <= i < |recs| => (recs[i].account, recs[i].contact))
  }

  /** The (account, contact) pairs of the jobs whose account has a row, in order. */
  function Expected(delays: map<int, int>, jobs: seq<Job>): (r: seq<(int, int)>)
    ensures |r| <= |jobs|
  {
    if jobs == [] then []
    else
      var last := jobs[|jobs| - 1];
      Expected(delays, jobs[..|jobs| - 1])
      + (if last.account in delays then [(last.account, last.contact.id)] else [])
  }

  /** The number of 'sent' rows. */
  function CountSent(recs: seq<Record>): (n: nat)
    ensures n <= |recs|
  {
    if recs == [] then 0
    else CountSent(recs[..|recs| - 1]) + (if recs[|recs| - 1].status == Sent then 1 else 0)
  }

  /** The time of the last 'sent' row of the account, if any. */
  function LastSentAt(recs: seq<Record>, account: int): Option<int> {
    if recs == [] then None
    else if recs[|recs| - 1].status == Sent && recs[|recs| - 1].account == account then
      Some(recs[|recs| - 1].sentAt)
    else LastSentAt(recs[..|recs| - 1], account)
  }

  /** Two 'sent' rows of the same account are at least that account's delay apart. */
  predicate Spaced(delays: map<int, int>, recs: seq<Record>) {
    forall i, j ::
      0 <= i < j < |recs| && recs[i].status == Sent && recs[j].status == Sent
      && recs[i].account == recs[j].account && recs[j].account in delays
      ==> recs[j].sentAt >= recs[i].sentAt + delays[recs[j].account]
  }

  /** The rows are in time order and none is later than the clock. */
  predicate TimeOrdered(recs: seq<Record>, clock: int) {
    && (forall i, j :: 0 <= i < j < |recs| ==> recs[i].sentAt <= recs[j].sentAt)
    && (forall i :: 0 <= i < |recs| ==> recs[i].sentAt <= clock / 1000)
  }

  /** What one job does to the dispatcher's state, as Step and Attend promise it. */
  predicate Effect(delays: map<int, int>, message: int, st: Run, r: Run, job: Job) {
    if job.account !in delays then r == st
    else
      && |r.sent| == |st.sent| + 1 && r.sent[..|st.sent|] == st.sent
      && var rec := r.sent[|st.sent|];
      && rec.account == job.account && rec.contact == job.contact.id && rec.message == message
      && rec.sentAt == r.tally.clock / 1000
      && st.tally.clock / 1000 <= rec.sentAt
      && r.stamps == (if rec.status == Sent then st.stamps[job.account := Stamp(rec.sentAt)] else st.stamps)
      && (rec.status == Sent && job.account in st.stamps && st.stamps[job.account].Stamp? ==>
            rec.sentAt >= st.stamps[job.account].seconds + delays[job.account])
      && r.tally.success == st.tally.success + (if rec.status == Sent then 1 else 0)
      && r.tally.fail == st.tally.fail + (if rec.status == Failed then 1 else 0)
      && r.tally.clock >= st.tally.clock
      && st.tally.total <= r.tally.total <= st.tally.total + 1
  }

  lemma StepEffect(delays: map<int, int>, send: nat -> Attempt, message: int, st: Run, job: Job)
    ensures Effect(delays, message, st, Step(delays, send, message, st, job), job)
  {
    if job.account in delays {
      var r := Step(delays, send, message, st, job);
      FloorMono(st.tally.clock, r.tally.clock);
    }
  }

  /** One more job of the run, with its state before (`mid`) and after (`fin`). */
  lemma LastStep(delays: map<int, int>, send: nat -> Attempt, message: int, st: Run, jobs: seq<Job>)
    requires jobs != []
    ensures var mid := RunJobs(delays, send, message, st, jobs[..|jobs| - 1]);
            Effect(delays, message, mid, RunJobs(delays, send, message, st, jobs), jobs[|jobs| - 1])
  {
    StepEffect(delays, send, message, RunJobs(delays, send, message, st, jobs[..|jobs| - 1]), jobs[|jobs| - 1]);
  }

  /** The rows a run has added. */
  function Added(st: Run, fin: Run): seq<Record>
    requires |st.sent| <= |fin.sent|
  {
    fin.sent[|st.sent|..]
  }

  /** Effect, seen from the start of the run: the added rows grow by the job's row. */
  lemma AddedStep(delays: map<int, int>, message: int, st: Run, mid: Run, fin: Run, job: Job)
    requires |st.sent| <= |mid.sent| && mid.sent[..|st.sent|] == st.sent
    requires Effect(delays, message, mid, fin, job) && job.account in delays
    ensures |st.sent| <= |fin.sent| && fin.sent[..|st.sent|] == st.sent
    ensures Added(st, fin) == Added(st, mid) + [fin.sent[|mid.sent|]]
  {
    assert fin.sent == mid.sent + [fin.sent[|mid.sent|]];
  }

  /**
   * A run only appends rows, one per job whose account has a row, for that
   * job's account and contact, in job order; and the clock never goes back.
   */
  lemma {:induction false} RunRecords(delays: map<int, int>, send: nat -> Attempt, message: int, st: Run, jobs: seq<Job>)
    ensures var fin := RunJobs(delays, send, message, st, jobs);
            && |st.sent| <= |fin.sent| && fin.sent[..|st.sent|] == st.sent
            && Pairs(Added(st, fin)) == Expected(delays, jobs)
            && (forall i :: 0 <= i < |Added(st, fin)| ==> Added(st, fin)[i].message == message)
            && fin.tally.clock >= st.tally.clock
  {
    if jobs != [] {
      var job := jobs[|jobs| - 1];
      RunRecords(delays, send, message, st, jobs[..|jobs| - 1]);
      LastStep(delays, send, message, st, jobs);
      var mid := RunJobs(delays, send, message, st, jobs[..|jobs| - 1]);
      var fin := RunJobs(delays, send, message, st, jobs);
      if job.account in delays {
        AddedStep(delays, message, st, mid, fin, job);
        assert Pairs(Added(st, fin)) == Pairs(Added(st, mid)) + [(job.account, job.contact.id)];
      }
    }
  }

  /** The counters count the rows: success the 'sent' ones, fail the others. */
  lemma {:induction false} RunCounts(delays: map<int, int>, send: nat -> Attempt, message: int, st: Run, jobs: seq<Job>)
    ensures var fin := RunJobs(delays, send, message, st, jobs);
            && |st.sent| <= |fin.sent|
            && fin.tally.success == st.tally.success + CountSent(Added(st, fin))
            && fin.tally.fail == st.tally.fail + (|Added(st, fin)| - CountSent(Added(st, fin)))
            && st.tally.total <= fin.tally.total <= st.tally.total + |Added(st, fin)|
  {
    RunRecords(delays, send, message, st, jobs);
    if jobs != [] {
      var job := jobs[|jobs| - 1];
      RunCounts(delays, send, message, st, jobs[..|jobs| - 1]);
      RunRecords(delays, send, message, st, jobs[..|jobs| - 1]);
      LastStep(delays, send, message, st, jobs);
      var mid := RunJobs(delays, send, message, st, jobs[..|jobs| - 1]);
      var fin := RunJobs(delays, send, message, st, jobs);
      if job.account in delays {
        AddedStep(delays, message, st, mid, fin, job);
        var added := Added(st, fin);
        assert added[..|added| - 1] == Added(st, mid);
      }
    }
  }

  /** Hence the campaign's successes and failures together never exceed its jobs. */
  lemma CountsBounded(delays: map<int, int>, send: nat -> Attempt, message: int, st: Run, jobs: seq<Job>)
    ensures var fin := RunJobs(delays, send, message, st, jobs);
            (fin.tally.success - st.tally.success) + (fin.tally.fail - st.tally.fail) <= |jobs|
  {
    RunCounts(delays, send, message, st, jobs);
    RunRecords(delays, send, message, st, jobs);
  }

  /** An account's stamp after `fin` is the time of its last 'sent' row added since `st`, or the old stamp. */
  predicate StampsFollow(st: Run, fin: Run, account: int)
    requires |st.sent| <= |fin.sent|
  {
    var last := LastSentAt(Added(st, fin), account);
    && (last.Some? ==> account in fin.stamps && fin.stamps[account] == Stamp(last.value))
    && (last.None? ==> StampRead(fin.stamps, account) == StampRead(st.stamps, account))
  }

  /**
   * Only a successful send moves the throttle clock: after a run, an account
   * with a new 'sent' row is stamped with the time of its last one, and every
   * other account's stamp is as it was.
   */
  lemma {:induction false} RunStamps(delays: map<int, int>, send: nat -> Attempt, message: int, st: Run, jobs: seq<Job>, account: int)
    ensures var fin := RunJobs(delays, send, message, st, jobs);
            |st.sent| <= |fin.sent|
            && var last := LastSentAt(Added(st, fin), account);
            && (last.Some? ==> account in fin.stamps && fin.stamps[account] == Stamp(last.value))
            && (last.None? ==> StampRead(fin.stamps, account) == StampRead(st.stamps, account))
  {
    RunRecords(delays, send, message, st, jobs);
    if jobs != [] {
      var job := jobs[|jobs| - 1];
      RunStamps(delays, send, message, st, jobs[..|jobs| - 1], account);
      RunRecords(delays, send, message, st, jobs[..|jobs| - 1]);
      LastStep(delays, send, message, st, jobs);
      var mid := RunJobs(delays, send, message, st, jobs[..|jobs| - 1]);
      var fin := RunJobs(delays, send, message, st, jobs);
      assert StampsFollow(st, mid, account);
      if job.account in delays {
        StampsStep(delays, message, st, mid, fin, job, account);
      }
      assert StampsFollow(st, fin, account);
    }
  }

  /** One attended job keeps the stamps following the added rows. */
  lemma StampsStep(delays: map<int, int>, message: int, st: Run, mid: Run, fin: Run, job: Job, account: int)
    requires |st.sent| <= |mid.sent| && mid.sent[..|st.sent|] == st.sent
    requires Effect(delays, message, mid, fin, job) && job.account in delays
    requires StampsFollow(st, mid, account)
    ensures |st.sent| <= |fin.sent| && StampsFollow(st, fin, account)
  {
    AddedStep(delays, message, st, mid, fin, job);
    var added := Added(st, fin);
    assert added[..|added| - 1] == Added(st, mid);
  }

  /** Rows are written in time order, never after the clock. */
  lemma {:induction false} RunTimes(delays: map<int, int>, send: nat -> Attempt, message: int, st: Run, jobs: seq<Job>)
    ensures var fin := RunJobs(delays, send, message, st, jobs);
            |st.sent| <= |fin.sent| && TimeOrdered(Added(st, fin), fin.tally.clock)
  {
    RunRecords(delays, send, message, st, jobs);
    if jobs != [] {
      var job := jobs[|jobs| - 1];
      RunTimes(delays, send, message, st, jobs[..|jobs| - 1]);
      RunRecords(delays, send, message, st, jobs[..|jobs| - 1]);
      LastStep(delays, send, message, st, jobs);
      var mid := RunJobs(delays, send, message, st, jobs[..|jobs| - 1]);
      var fin := RunJobs(delays, send, message, st, jobs);
      FloorMono(mid.tally.clock, fin.tally.clock);
      if job.account in delays {
        AddedStep(delays, message, st, mid, fin, job);
        TimesStep(Added(st, mid), fin.sent[|mid.sent|], mid.tally.clock, fin.tally.clock);
      }
    }
  }

  lemma TimesStep(before: seq<Record>, rec: Record, clock: int, clock': int)
    requires TimeOrdered(before, clock)
    requires clock / 1000 <= rec.sentAt && rec.sentAt == clock' / 1000
    ensures TimeOrdered(before + [rec], clock')
  {
    var added := before + [rec];
    forall i | 0 <= i < |added| ensures added[i].sentAt <= clock' / 1000 {
      if i < |before| {
        assert added[i] == before[i];
      }
    }
    forall i, j | 0 <= i < j < |added| ensures added[i].sentAt <= added[j].sentAt {
      assert added[i] == before[i];
      if j < |before| {
        assert added[j] == before[j];
      }
    }
  }

  /** In time-ordered rows, the last 'sent' time of an account bounds all its 'sent' rows. */
  lemma {:induction false} LastSentAtBounds(recs: seq<Record>, account: int, i: int)
    requires 0 <= i < |recs| && recs[i].status == Sent && recs[i].account == account
    requires forall a, b :: 0 <= a < b < |recs| ==> recs[a].sentAt <= recs[b].sentAt
    ensures LastSentAt(recs, account).Some? && recs[i].sentAt <= LastSentAt(recs, account).value
  {
    var n := |recs|;
    if !(recs[n - 1].status == Sent && recs[n - 1].account == account) {
      LastSentAtBounds(recs[..n - 1], account, i);
    }
  }

  /**
   * The throttle holds over a whole campaign: two 'sent' rows that one
   * account writes are at least its delay apart.
   */
  lemma {:induction false} RunSpaced(delays: map<int, int>, send: nat -> Attempt, message: int, st: Run, jobs: seq<Job>)
    ensures var fin := RunJobs(delays, send, message, st, jobs);
            |st.sent| <= |fin.sent| && Spaced(delays, Added(st, fin))
  {
    RunRecords(delays, send, message, st, jobs);
    if jobs != [] {
      var job := jobs[|jobs| - 1];
      var prefix := jobs[..|jobs| - 1];
      RunSpaced(delays, send, message, st, prefix);
      RunRecords(delays, send, message, st, prefix);
      LastStep(delays, send, message, st, jobs);
      var mid := RunJobs(delays, send, message, st, prefix);
      var fin := RunJobs(delays, send, message, st, jobs);
      if job.account in delays {
        AddedStep(delays, message, st, mid, fin, job);
        var before := Added(st, mid);
        var rec := fin.sent[|mid.sent|];
        forall i | 0 <= i < |before| && before[i].status == Sent && rec.status == Sent
                   && before[i].account == rec.account
          ensures rec.sentAt >= before[i].sentAt + delays[rec.account]
        {
          RunTimes(delays, send, message, st, prefix);
          LastSentAtBounds(before, rec.account, i);
          RunStamps(delays, send, message, st, prefix, rec.account);
        }
        SpacedStep(delays, before, rec);
      }
    }
  }

  lemma SpacedStep(delays: map<int, int>, before: seq<Record>, rec: Record)
    requires Spaced(delays, before)
    requires forall i :: 0 <= i < |before| && before[i].status == Sent && rec.status == Sent
                         && before[i].account == rec.account && rec.account in delays
                         ==> rec.sentAt >= before[i].sentAt + delays[rec.account]
    ensures Spaced(delays, before + [rec])
  {
    var added := before + [rec];
    forall i, j | 0 <= i < j < |added| && added[i].status == Sent && added[j].status == Sent
                  && added[i].account == added[j].account && added[j].account in delays
      ensures added[j].sentAt >= added[i].sentAt + delays[added[j].account]
    {
      assert added[i] == before[i];
      if j < |before| {
        assert added[j] == before[j];
      }
    }
  }

  // ---- the database helpers and the dispatcher ----

  /** The tables the dispatcher reads and writes. */
  class SenderDb {
    /** accounts: the delay of each account id. */
    var delays: map<int, int>
    /** account_timestamps: the last-sent stamp of each account id. */
    var stamps: map<int, StoredStamp>
    /** messages: the text of message id k at position k - 1. */
    var messages: seq<string>
    /** sent_messages, in insertion order. */
    var sent: seq<Record>

    constructor (delays: map<int, int>)
      ensures this.delays == delays && stamps == map[] && messages == [] && sent == []
    {
      this.delays := delays;
      stamps := map[];
      messages := [];
      sent := [];
    }

    /** save_message: store the text; its id is the next row number. */
    method SaveMessage(text: string) returns (id: int)
      modifies this
      ensures messages == old(messages) + [text] && id == |messages|
      ensures delays == old(delays) && stamps == old(stamps) && sent == old(sent)
    {
      messages := messages + [text];
      id := |messages|;
    }

    /** update_account_timestamp: set (or create) the account's stamp to now. */
    method UpdateAccountTimestamp(account: int, nowSeconds: int)
      modifies this
      ensures stamps == old(stamps)[account := Stamp(nowSeconds)]
      ensures delays == old(delays) && messages == old(messages) && sent == old(sent)
    {
      stamps := stamps[account := Stamp(nowSeconds)];
    }

    /** record_sent_message: append a row, and move the account's stamp only for status 'sent'. */
    method RecordSentMessage(account: int, contact: int, message: int, status: Status, nowSeconds: int)
      modifies this
      ensures sent == old(sent) + [Record(account, contact, message, status, nowSeconds)]
      ensures stamps == if status == Sent then old(stamps)[account := Stamp(nowSeconds)] else old(stamps)
      ensures delays == old(delays) && messages == old(messages)
    {
      sent := sent + [Record(account, contact, message, status, nowSeconds)];
      if status == Sent {
        UpdateAccountTimestamp(account, nowSeconds);
      }
    }

    /** The body of the inner loop of send_messages for one job. */
    method SendOne(job: Job, message: int, send: nat -> Attempt, t: Tally) returns (t': Tally)
      modifies this
      requires job.account in delays
      ensures delays == old(delays) && messages == old(messages)
      ensures Run(stamps, sent, t')
              == Apply(Run(old(stamps), old(sent), t), job, message,
                       Resolve(delays[job.account], StampRead(old(stamps), job.account), send, t))
    {
      var account := job.account;
      var verdict := CheckAccountDelay(Row(delays[account]), StampRead(stamps, account), t.clock);
      var clock := t.clock;
      if !verdict.canSend {
        clock := clock + verdict.waitSeconds * 1000;
      }
      assert clock == Ready(delays[account], StampRead(stamps, account), t.clock);
      var result := send(t.attempts);
      var attempts := t.attempts + 1;
      clock := clock + result.tookMs;
      if result.result.Delivered? {
        FirstDelivered(delays[account], StampRead(stamps, account), send, t);
        RecordSentMessage(account, job.contact.id, message, Sent, clock / 1000);
        UpdateAccountTimestamp(account, clock / 1000);
        t' := Tally(clock, attempts, t.success + 1, t.fail, t.total + 1);
      } else {
        FirstFailed(delays[account], StampRead(stamps, account), send, t);
        t' := SendFailed(job, message, send, result.result.text, Tally(clock, attempts, t.success, t.fail, t.total));
      }
    }

    /**
     * The error branch of the inner loop: `t` holds the clock and attempt
     * count after the failed attempt. A flood-wait error with a number sleeps
     * at most FloodCap seconds and retries once; a delivered retry writes a
     * 'sent' row and skips the total_sent increment; anything else writes one
     * 'failed' row.
     */
    method SendFailed(job: Job, message: int, send: nat -> Attempt, error: string, t: Tally) returns (t': Tally)
      modifies this
      ensures Run(stamps, sent, t')
              == Apply(Run(old(stamps), old(sent), t), job, message, AfterError(error, send, t.clock, t.attempts))
      ensures delays == old(delays) && messages == old(messages)
    {
      var clock, attempts := t.clock, t.attempts;
      if !IsFlood(error) || FirstNumber(error).None? {
        NoRetry(error, send, clock, attempts);
      }
      if IsFlood(error) {
        var waitMatch := FirstNumber(error);
        if waitMatch.Some? {
          FloodRetry(error, send, clock, attempts, waitMatch.value);
          clock := clock + Min(waitMatch.value, FloodCap) * 1000;
          var retry := send(attempts);
          attempts := attempts + 1;
          clock := clock + retry.tookMs;
          if retry.result.Delivered? {
            RecordSentMessage(job.account, job.contact.id, message, Sent, clock / 1000);
            UpdateAccountTimestamp(job.account, clock / 1000);
            return Tally(clock, attempts, t.success + 1, t.fail, t.total);
          }
        }
      }
      RecordSentMessage(job.account, job.contact.id, message, Failed, clock / 1000);
      t' := Tally(clock, attempts, t.success, t.fail + 1, t.total + 1);
    }

  }

  /** One wave: each account in order sends the contact at index `wave` of its queue, if its queue has one. */
  method DispatchWave(db: SenderDb, accounts: seq<int>, queues: seq<seq<Contact>>, wave: nat,
                      message: int, send: nat -> Attempt, t: Tally)
    returns (t': Tally)
    requires |accounts| == |queues|
    modifies db
    ensures db.delays == old(db.delays) && db.messages == old(db.messages)
    ensures Run(db.stamps, db.sent, t')
            == RunJobs(db.delays, send, message, Run(old(db.stamps), old(db.sent), t), WaveRow(accounts, queues, wave, |queues|))
  {
    ghost var st := Run(db.stamps, db.sent, t);
    t' := t;
    var j := 0;
    while j < |accounts|
      invariant 0 <= j <= |accounts|
      invariant db.delays == old(db.delays) && db.messages == old(db.messages)
      invariant Run(db.stamps, db.sent, t') == RunJobs(db.delays, send, message, st, WaveRow(accounts, queues, wave, j))
    {
      ghost var row := WaveRow(accounts, queues, wave, j);
      if wave < |queues[j]| {
        var job := Job(accounts[j], queues[j][wave]);
        assert WaveRow(accounts, queues, wave, j + 1) == row + [job];
        RunSnoc(db.delays, send, message, st, row, job);
        if job.account in db.delays {
          StepResolves(db.delays, send, message, Run(db.stamps, db.sent, t'), job);
          t' := db.SendOne(job, message, send, t');
        }
      } else {
        assert WaveRow(accounts, queues, wave, j + 1) == row + [] == row;
      }
      j := j + 1;
    }
  }

  /** All waves, 0 up to the longest queue's length, in order. */
  method DispatchWaves(db: SenderDb, accounts: seq<int>, queues: seq<seq<Contact>>,
                       message: int, send: nat -> Attempt, t: Tally)
    returns (t': Tally)
    requires |accounts| == |queues|
    modifies db
    ensures db.delays == old(db.delays) && db.messages == old(db.messages)
    ensures Run(db.stamps, db.sent, t')
            == RunJobs(db.delays, send, message, Run(old(db.stamps), old(db.sent), t), Waves(accounts, queues, MaxWaves(queues)))
  {
    ghost var st := Run(db.stamps, db.sent, t);
    var maxWaves := MaxWaves(queues);
    t' := t;
    var wave := 0;
    while wave < maxWaves
      invariant 0 <= wave <= maxWaves
      invariant db.delays == old(db.delays) && db.messages == old(db.messages)
      invariant Run(db.stamps, db.sent, t') == RunJobs(db.delays, send, message, st, Waves(accounts, queues, wave))
    {
      RunAppend(db.delays, send, message, st, Waves(accounts, queues, wave), WaveRow(accounts, queues, wave, |queues|));
      t' := DispatchWave(db, accounts, queues, wave, message, send, t');
      wave := wave + 1;
    }
  }

  /**
   * send_messages: reject an empty text, an empty selection or the lack of
   * an available account; otherwise save the message, plan the waves and
   * send them, wave after wave, each wave in account order. The campaign
   * starts at clock0 with no attempt made.
   */
  method SendMessages(db: SenderDb, manager: ClientManager, input: string, selected: seq<Contact>,
                      send: nat -> Attempt, clock0: int)
    returns (r: Result<Tally, CampaignError>)
    requires manager.Valid()
    modifies db
    ensures db.delays == old(db.delays)
    ensures Trim(input) == [] ==> r == Err(NoText)
    ensures Trim(input) != [] && selected == [] ==> r == Err(NoContacts)
    ensures Trim(input) != [] && selected != [] && Available(manager.order, manager.clients) == [] ==>
              r == Err(NoAccounts)
    ensures r.Ok? <==> Trim(input) != [] && selected != [] && Available(manager.order, manager.clients) != []
    ensures r.Err? ==> db.messages == old(db.messages) && db.stamps == old(db.stamps) && db.sent == old(db.sent)
    ensures r.Ok? ==>
              var accounts := Available(manager.order, manager.clients);
              && Trim(input) != [] && selected != [] && accounts != []
              && db.messages == old(db.messages) + [Trim(input)]
              && var fin := RunJobs(db.delays, send, |db.messages|,
                                    Run(old(db.stamps), old(db.sent), Tally(clock0, 0, 0, 0, 0)),
                                    InOrder(accounts, SortContacts(selected)));
                 db.stamps == fin.stamps && db.sent == fin.sent && r.value == fin.tally
  {
    var text := Trim(input);
    if text == [] {
      return Err(NoText);
    }
    if |selected| == 0 {
      return Err(NoContacts);
    }
    var accounts := manager.AvailableClients();
    if |accounts| == 0 {
      return Err(NoAccounts);
    }
    var message := db.SaveMessage(text);
    var queues := PlanWaves(accounts, selected);
    var t := DispatchWaves(db, accounts, queues, message, send, Tally(clock0, 0, 0, 0, 0));
    PlanInSortedOrder(accounts, selected);
    r := Ok(t);
  }
}
