/** The temperature table of `poll`: how long to wait before the next stat
    of a path, chosen from how recently it changed (or, for a path never seen
    to change, how long ago polling began). Times are in milliseconds. */
module Temperature {
  import opened Base

  // Age thresholds.
  const HOT_FILE: int := 1000 * 60 * 5
  const SEMI_HOT_FILE: int := 1000 * 60 * 15
  const WARM_FILE: int := 1000 * 60 * 60
  const COLD_FILE: int := 1000 * 60 * 60 * 3
  const INITIAL_FILE: int := 1000 * 60 * 1

  // The five polling intervals, fastest first.
  const HOT_POLL_INTERVAL: nat := 33
  const SEMI_HOT_POLL_INTERVAL: nat := 99
  const WARM_POLL_INTERVAL: nat := 200
  const COLD_POLL_INTERVAL: nat := 500
  const FREEZING_POLL_INTERVAL: nat := 800

  /** The delay of the very first tick scheduled by `startPolling`. */
  const BOOTSTRAP_INTERVAL: nat := 300

  /** The delay of a not-found retry and of `resume`. */
  const RETRY_DELAY: nat := 5

  /** The decision table of `poll`, one branch per row, each age compared
      with strict `<`. `age` is `now - mtime` for a touched path and
      `now - startTime` for an untouched one. */
  function SelectInterval(touched: bool, age: int): (d: nat)
    ensures d in {HOT_POLL_INTERVAL, SEMI_HOT_POLL_INTERVAL, WARM_POLL_INTERVAL,
                  COLD_POLL_INTERVAL, FREEZING_POLL_INTERVAL}
    // only a touched, recently modified path is polled at the hot rate
    ensures d == HOT_POLL_INTERVAL <==> touched && age < HOT_FILE
    // every path older than three hours is polled at the freezing rate
    ensures d == FREEZING_POLL_INTERVAL <==> age >= COLD_FILE
  {
    if !touched then
      if age < INITIAL_FILE then SEMI_HOT_POLL_INTERVAL
      else if age < WARM_FILE then WARM_POLL_INTERVAL
      else if age < COLD_FILE then COLD_POLL_INTERVAL
      else FREEZING_POLL_INTERVAL
    else
      if age < HOT_FILE then HOT_POLL_INTERVAL
      else if age < SEMI_HOT_FILE then SEMI_HOT_POLL_INTERVAL
      else if age < WARM_FILE then WARM_POLL_INTERVAL
      else if age < COLD_FILE then COLD_POLL_INTERVAL
      else FREEZING_POLL_INTERVAL
  }

  /** The interval `poll` stores after a successful stat. A path never
      touched measures its age from the global start time; while that is
      still `undefined` the age is NaN, every `<` is false, and the last
      (freezing) branch is taken. */
  function NextInterval(touched: bool, now: int, mtime: int, startTime: Option<int>): (d: nat)
    // a touched path: the rung of the freshly observed mtime's age
    ensures touched ==>
      ClassIndex(Thresholds(true), now - mtime) < |Ladder(true)|
      && d == Ladder(true)[ClassIndex(Thresholds(true), now - mtime)]
    // an untouched path: the rung of the age since polling began, never the hot one
    ensures !touched && startTime.Some? ==>
      ClassIndex(Thresholds(false), now - startTime.value) < |Ladder(false)|
      && d == Ladder(false)[ClassIndex(Thresholds(false), now - startTime.value)]
    ensures !touched ==> d != HOT_POLL_INTERVAL
    ensures !touched && startTime.None? ==> d == FREEZING_POLL_INTERVAL
  {
    if touched then
      SelectIntervalIsLadder(true, now - mtime);
      SelectInterval(true, now - mtime)
    else if startTime.None? then FREEZING_POLL_INTERVAL
    else
      SelectIntervalIsLadder(false, now - startTime.value);
      SelectInterval(false, now - startTime.value)
  }

  // ---------------------------------------------------------------------
  // An independent reading of the table: a ladder of intervals and the
  // ascending thresholds that separate its rungs.

  function Thresholds(touched: bool): (ts: seq<int>)
  {
    if touched then [HOT_FILE, SEMI_HOT_FILE, WARM_FILE, COLD_FILE]
    else [INITIAL_FILE, WARM_FILE, COLD_FILE]
  }

  function Ladder(touched: bool): (rungs: seq<nat>)
  {
    if touched then [HOT_POLL_INTERVAL, SEMI_HOT_POLL_INTERVAL, WARM_POLL_INTERVAL,
                     COLD_POLL_INTERVAL, FREEZING_POLL_INTERVAL]
    else [SEMI_HOT_POLL_INTERVAL, WARM_POLL_INTERVAL, COLD_POLL_INTERVAL,
          FREEZING_POLL_INTERVAL]
  }

  /** The rung an age falls on: the number of leading thresholds the age has
      reached. */
  function ClassIndex(ts: seq<int>, age: int): (k: nat)
    ensures k <= |ts|
    ensures forall i :: 0 <= i < k ==> ts[i] <= age
    ensures k < |ts| ==> age < ts[k]
  {
    if ts == [] || age < ts[0] then 0 else 1 + ClassIndex(ts[1..], age)
  }

  lemma LadderShape(touched: bool)
    ensures |Ladder(touched)| == |Thresholds(touched)| + 1
    ensures forall i, j :: 0 <= i < j < |Thresholds(touched)| ==> Thresholds(touched)[i] < Thresholds(touched)[j]
    ensures forall i, j :: 0 <= i < j < |Ladder(touched)| ==> Ladder(touched)[i] < Ladder(touched)[j]
  {
  }

  /** The nested `if` of `poll` is the ladder lookup. */
  lemma SelectIntervalIsLadder(touched: bool, age: int)
    ensures ClassIndex(Thresholds(touched), age) < |Ladder(touched)|
    ensures SelectInterval(touched, age) == Ladder(touched)[ClassIndex(Thresholds(touched), age)]
  {
    var ts := Thresholds(touched);
    var k := ClassIndex(ts, age);
    LadderShape(touched);
    if k > 0 { assert ts[0] <= age; }
    if k > 1 { assert ts[1] <= age; }
    if k > 2 { assert ts[2] <= age; }
    if k > 3 { assert ts[3] <= age; }
  }

  /** An older file is never polled more often. */
  lemma SelectIntervalMonotone(touched: bool, age1: int, age2: int)
    requires age1 <= age2
    ensures SelectInterval(touched, age1) <= SelectInterval(touched, age2)
  {
    SelectIntervalIsLadder(touched, age1);
    SelectIntervalIsLadder(touched, age2);
    LadderShape(touched);
  }

  /** An age exactly at a threshold falls on the slower rung, one less
      falls on the faster one. */
  lemma ThresholdFallsSlower(touched: bool, i: nat)
    requires i < |Thresholds(touched)|
    ensures SelectInterval(touched, Thresholds(touched)[i]) == Ladder(touched)[i + 1]
    ensures SelectInterval(touched, Thresholds(touched)[i] - 1) == Ladder(touched)[i]
  {
    var ts := Thresholds(touched);
    LadderShape(touched);
    SelectIntervalIsLadder(touched, ts[i]);
    SelectIntervalIsLadder(touched, ts[i] - 1);
  }
}
