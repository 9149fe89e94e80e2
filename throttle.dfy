/**
 * The per-account throttle check of the desktop bulk sender
 * (check_account_delay in attached_assets/novint.py).
 *
 * Time is an integer number of milliseconds; the stored last-sent stamp has
 * whole-second resolution, as the '%Y-%m-%d %H:%M:%S' text it is kept in.
 */
module Throttle {

  /** The outcome of one database read: a row, no row, or an error raised by the read. */
  datatype DbRead<+T> = Row(value: T) | NoRow | ReadError

  /** A stored last-sent stamp: a parsable time in whole seconds, an empty text, or text strptime rejects. */
  datatype StoredStamp = Stamp(seconds: int) | Blank | Unparsable

  /** The answer of the check: may the account send now, and if not, how many whole seconds to wait. */
  datatype Verdict = Verdict(canSend: bool, waitSeconds: nat)

  /** Milliseconds between a stored stamp (in seconds) and the current time. */
  function ElapsedMs(stampSeconds: int, nowMs: int): int {
    nowMs - stampSeconds * 1000
  }

  /** Integer ceiling of ms / 1000 for a positive number of milliseconds. */
  function CeilSeconds(ms: int): (r: nat)
    requires ms > 0
    ensures (r - 1) * 1000 < ms <= r * 1000
  {
    (ms + 999) / 1000
  }

  /**
   * check_account_delay. `delayRow` is the result of reading the account's delay,
   * `stampRead` the result of get_account_last_sent, which itself turns a read
   * error into "no stamp".
   */
  function CheckAccountDelay(delayRow: DbRead<int>, stampRead: DbRead<StoredStamp>, nowMs: int): (v: Verdict)
    // an unknown account may not send and gets no wait
    ensures delayRow.NoRow? ==> v == Verdict(false, 0)
    // a failing read of the account fails open
    ensures delayRow.ReadError? ==> v == Verdict(true, 0)
    // no usable history (no row, read error, blank or unparsable text) fails open
    ensures delayRow.Row? && !(stampRead.Row? && stampRead.value.Stamp?) ==> v == Verdict(true, 0)
    // with a history, the account may send exactly when the delay has elapsed ...
    ensures delayRow.Row? && stampRead.Row? && stampRead.value.Stamp? ==>
      var elapsed := ElapsedMs(stampRead.value.seconds, nowMs);
      var delayMs := delayRow.value * 1000;
      (v.canSend <==> elapsed >= delayMs)
      && (v.canSend ==> v.waitSeconds == 0)
      // ... and otherwise waits the least whole number of seconds that covers the rest
      && (!v.canSend ==>
            && v.waitSeconds >= 1
            && elapsed + v.waitSeconds * 1000 >= delayMs
            && elapsed + (v.waitSeconds - 1) * 1000 < delayMs)
  {
    match delayRow
    case ReadError => Verdict(true, 0)
    case NoRow => Verdict(false, 0)
    case Row(delay) =>
      match stampRead
      case Row(Stamp(seconds)) =>
        var elapsed := ElapsedMs(seconds, nowMs);
        if elapsed < delay * 1000 then
          Verdict(false, CeilSeconds(delay * 1000 - elapsed))
        else
          Verdict(true, 0)
      case _ => Verdict(true, 0)
  }

  /** The account may send at `nowMs` given its delay and optional stamp. */
  predicate Permits(delay: int, stamp: StoredStamp, nowMs: int) {
    stamp.Stamp? ==> ElapsedMs(stamp.seconds, nowMs) >= delay * 1000
  }

  /** Waiting the returned number of seconds always brings the account to a time it may send. */
  lemma WaitSuffices(delay: int, stamp: StoredStamp, nowMs: int)
    ensures var v := CheckAccountDelay(Row(delay), Row(stamp), nowMs);
            Permits(delay, stamp, nowMs + v.waitSeconds * 1000)
  {
  }

  /** Once the account may send, it may send at every later time as well. */
  lemma PermitsLater(delay: int, stamp: StoredStamp, t: int, t': int)
    requires Permits(delay, stamp, t) && t <= t'
    ensures Permits(delay, stamp, t')
  {
  }

  /** The example of a delay of 10 s and a stamp 3 s old: wait 7 s. */
  lemma ExampleSevenSeconds(stamp: int)
    ensures CheckAccountDelay(Row(10), Row(Stamp(stamp)), stamp * 1000 + 3000) == Verdict(false, 7)
  {
  }

  /** A fractional remainder is rounded up: 2.5 s left gives a wait of 3 s. */
  lemma ExampleRoundsUp(stamp: int)
    ensures CheckAccountDelay(Row(10), Row(Stamp(stamp)), stamp * 1000 + 7500) == Verdict(false, 3)
  {
  }
}
