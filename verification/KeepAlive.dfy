/** The heartbeat of one connection: WritePump pings on a ticker, and only a pong moves ReadPump's deadline
    (sections 5.5.2 and 5.5.3 of RFC 6455). Times are seconds since ReadPump set its first deadline. */
module KeepAlive {

  const PONG_WAIT: real := 60.0
  const PING_PERIOD: real := PONG_WAIT * 9.0 / 10.0

  /** ReadPump's deadline, and whether a read has failed because of it. */
  datatype Reader = Reader(deadline: real, expired: bool)

  /** The pong handler runs inside ReadMessage, which fails once the deadline has come. */
  function OnPong(r: Reader, at: real): Reader {
    if r.expired || at >= r.deadline then r.(expired := true) else Reader(at + PONG_WAIT, false)
  }

  /** WritePump's ticker starts at `skew`. Its k-th ping leaves late and its pong takes time to come back and be read;
      `lag` is both together. */
  function PongTime(skew: real, lags: seq<real>, k: nat): real
    requires k < |lags|
  {
    skew + PING_PERIOD * (k + 1) as real + lags[k]
  }

  function Watch(skew: real, lags: seq<real>): Reader {
    if lags == [] then Reader(PONG_WAIT, false)
    else OnPong(Watch(skew, lags[..|lags| - 1]), PongTime(skew, lags, |lags| - 1))
  }

  /** No pong comes six seconds later, relative to its tick, than the one before; the first is measured from the
      start. */
  ghost predicate Steady(skew: real, lags: seq<real>) {
    && (lags != [] ==> skew + lags[0] < PONG_WAIT - PING_PERIOD)
    && forall k | 0 < k < |lags| :: lags[k] - lags[k - 1] < PONG_WAIT - PING_PERIOD
  }

  /** Over any number of ticks: the deadline never fires if and only if the pongs are steady. */
  lemma {:induction false} DeadlineHolds(skew: real, lags: seq<real>)
    ensures !Watch(skew, lags).expired <==> Steady(skew, lags)
    ensures Steady(skew, lags) ==>
              Watch(skew, lags).deadline == PONG_WAIT + if lags == [] then 0.0 else PongTime(skew, lags, |lags| - 1)
  {
    if lags != [] {
      var n := |lags| - 1;
      DeadlineHolds(skew, lags[..n]);
      var slip := if n == 0 then skew + lags[0] else lags[n] - lags[n - 1];
      assert Steady(skew, lags) <==> Steady(skew, lags[..n]) && slip < PONG_WAIT - PING_PERIOD;
      assert n > 0 ==> PongTime(skew, lags[..n], n - 1) == PongTime(skew, lags, n - 1);
    }
  }

  /** In particular if send delay and round trip together always stay below six seconds, and for the first ping the
      start skew too; the ticker may also have started before the first deadline was set. */
  lemma {:induction false} PromptPongsSuffice(skew: real, lags: seq<real>)
    requires forall k | 0 <= k < |lags| :: 0.0 <= lags[k] < PONG_WAIT - PING_PERIOD
    requires lags != [] ==> skew + lags[0] < PONG_WAIT - PING_PERIOD
    ensures PONG_WAIT - PING_PERIOD == 6.0 && !Watch(skew, lags).expired
  {
    DeadlineHolds(skew, lags);
  }
}
