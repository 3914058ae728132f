/** The automatic speed limit: warnings, the limited set, and its release. */
module AutoLimit {
  import opened Api

  datatype Config = Config(limit: int, warnTimes: int, limitSpeed: int, limitDuration: int, updatePeriodic: int)

  datatype LimitInfo = LimitInfo(end: int, current: int, origin: uint64)

  datatype Sample = Sample(user: UserInfo, up: int, down: int)

  /** Division that truncates toward zero. */
  function Quo(a: int, b: int): int
    requires b > 0
  {
    if a >= 0 then a / b else -(-a / b)
  }

  /** Bytes a user may move in one direction between two passes. */
  function Threshold(cfg: Config): int {
    Quo(cfg.limit * 1000000 * cfg.updatePeriodic, 8)
  }

  predicate Over(cfg: Config, s: Sample) {
    (s.up > 0 || s.down > 0) && (s.down > Threshold(cfg) || s.up > Threshold(cfg))
  }

  /**
   What being over means, without the division: some bytes moved, and in one of the two directions more than the limit,
   in megabits per second, allows over a period in seconds.
   */
  predicate Exceeds(cfg: Config, s: Sample) {
    var bits := cfg.limit * 1000000 * cfg.updatePeriodic;
    (s.up > 0 || s.down > 0) && (8 * s.up > bits || 8 * s.down > bits)
  }

  lemma OverIs(cfg: Config, s: Sample)
    ensures Over(cfg, s) <==> Exceeds(cfg, s)
    ensures cfg.limit > 0 && cfg.updatePeriodic > 0 ==>
      var bits := cfg.limit * 1000000 * cfg.updatePeriodic;
      (Over(cfg, s) <==> 8 * s.up > bits || 8 * s.down > bits)
  {
    var bits := cfg.limit * 1000000 * cfg.updatePeriodic;
    EighthIs(bits, s.up);
    EighthIs(bits, s.down);
    if cfg.limit > 0 && cfg.updatePeriodic > 0 {
      Positive(cfg.limit * 1000000, cfg.updatePeriodic);
    }
  }

  lemma EighthIs(n: int, x: int)
    ensures n >= 0 ==> (x > Quo(n, 8) <==> 8 * x > n)
    ensures n < 0 && x > 0 ==> x > Quo(n, 8) && 8 * x > n
  {
  }

  lemma Positive(a: int, b: int)
    requires a > 0 && b > 0
    ensures a * b > 0
  {
  }

  /** Go's conversion to an unsigned 64-bit integer. */
  function ToUint64(x: int): uint64 {
    x % 0x1_0000_0000_0000_0000
  }

  function Slowed(cfg: Config, user: UserInfo): UserInfo {
    user.(speedLimit := ToUint64(Quo(cfg.limitSpeed * 1000000, 8)))
  }

  /** A limited user is pushed with the configured speed, in bytes per second, and is otherwise the same record. */
  lemma SlowedIs(cfg: Config, user: UserInfo)
    requires 0 <= cfg.limitSpeed * 125000 < 0x1_0000_0000_0000_0000
    ensures Slowed(cfg, user) == user.(speedLimit := cfg.limitSpeed * 125000)
  {
  }

  /******* State as a value *******/

  type Warned = map<UserInfo, int>
  type Limited = map<UserInfo, LimitInfo>

  datatype State = State(limited: Limited, warned: Warned)

  function Warnings(warned: Warned, user: UserInfo): int {
    if user in warned then warned[user] else 0
  }

  function NewLimit(cfg: Config, now: int, user: UserInfo): LimitInfo {
    LimitInfo(now + cfg.limitDuration * 60, cfg.limitSpeed, user.speedLimit)
  }

  /** One user's sample in a pass. */
  function TakeSample(cfg: Config, now: int, st: State, s: Sample): State {
    if cfg.limit <= 0 then
      if s.up > 0 || s.down > 0 then st else st.(warned := st.warned - {s.user})
    else if !Over(cfg, s) then st.(warned := st.warned - {s.user})
    else if s.user in st.limited then st
    else if cfg.warnTimes == 0 then st.(limited := st.limited[s.user := NewLimit(cfg, now, s.user)])
    else if Warnings(st.warned, s.user) + 1 > cfg.warnTimes then
      State(st.limited[s.user := NewLimit(cfg, now, s.user)], st.warned - {s.user})
    else
      st.(warned := st.warned[s.user := Warnings(st.warned, s.user) + 1])
  }

  function TakeSamples(cfg: Config, now: int, st: State, samples: seq<Sample>): State {
    if samples == [] then st
    else TakeSample(cfg, now, TakeSamples(cfg, now, st, samples[..|samples| - 1]), samples[|samples| - 1])
  }

  /** Entries whose end lies strictly in the past go. */
  function Unlocked(cfg: Config, now: int, st: State): State {
    if cfg.limit <= 0 then st
    else st.(limited := map user | user in st.limited && now <= st.limited[user].end :: st.limited[user])
  }

  predicate KeysCarrySpeed(limited: Limited) {
    forall user :: user in limited ==> limited[user].origin == user.speedLimit
  }

  /******* The controller's part of a pass *******/

  class AutoLimiter {
    const cfg: Config
    var limitedUsers: Limited
    var warnedUsers: Warned

    constructor (cfg: Config)
      ensures this.cfg == cfg && Value() == State(map[], map[])
    {
      this.cfg := cfg;
      limitedUsers := map[];
      warnedUsers := map[];
    }

    ghost function Value(): State
      reads this
    {
      State(limitedUsers, warnedUsers)
    }

    ghost predicate Valid()
      reads this
    {
      KeysCarrySpeed(limitedUsers)
    }

    method LimitUser(now: int, user: UserInfo) returns (slowed: UserInfo)
      modifies this`limitedUsers
      ensures limitedUsers == old(limitedUsers)[user := NewLimit(cfg, now, user)]
      ensures slowed == Slowed(cfg, user)
    {
      limitedUsers := limitedUsers[user := LimitInfo(now + cfg.limitDuration * 60, cfg.limitSpeed, user.speedLimit)];
      slowed := user.(speedLimit := ToUint64(Quo(cfg.limitSpeed * 1000000, 8)));
    }

    /** The entry is deleted under the user with its original speed put back: the same key, by the invariant. */
    method Unlock(now: int) returns (released: seq<UserInfo>)
      requires Valid()
      modifies this`limitedUsers
      ensures Valid() && Value() == Unlocked(cfg, now, old(Value()))
      ensures forall user :: user in released <==> user in old(limitedUsers) && user !in limitedUsers
      ensures forall i, j :: 0 <= i < j < |released| ==> released[i] != released[j]
    {
      released := [];
      if cfg.limit <= 0 {
        return;
      }
      var rest := limitedUsers.Keys;
      while rest != {}
        invariant rest <= old(limitedUsers).Keys
        invariant limitedUsers
          == map user | user in old(limitedUsers) && (user in rest || now <= old(limitedUsers)[user].end)
             :: old(limitedUsers)[user]
        invariant forall user :: user in released <==> user in old(limitedUsers) && user !in limitedUsers
        invariant forall i, j :: 0 <= i < j < |released| ==> released[i] != released[j]
        decreases |rest|
      {
        var key :| key in rest;
        rest := rest - {key};
        var info := limitedUsers[key];
        if now > info.end {
          var user := key.(speedLimit := info.origin);
          released := released + [user];
          limitedUsers := limitedUsers - {user};
        }
      }
    }

    method Observe(now: int, s: Sample) returns (slowed: Option<UserInfo>)
      requires Valid()
      modifies this
      ensures Valid() && old(limitedUsers).Keys <= limitedUsers.Keys <= old(limitedUsers).Keys + {s.user}
      ensures Value() == TakeSample(cfg, now, old(Value()), s)
      ensures slowed
        == if s.user in limitedUsers && s.user !in old(limitedUsers) then Some(Slowed(cfg, s.user)) else None
    {
      slowed := None;
      if s.up > 0 || s.down > 0 {
        if cfg.limit > 0 {
          if s.down > Threshold(cfg) || s.up > Threshold(cfg) {
            if s.user !in limitedUsers {
              if cfg.warnTimes == 0 {
                var u := LimitUser(now, s.user);
                slowed := Some(u);
              } else {
                warnedUsers := warnedUsers[s.user := Warnings(warnedUsers, s.user) + 1];
                if warnedUsers[s.user] > cfg.warnTimes {
                  var u := LimitUser(now, s.user);
                  slowed := Some(u);
                  warnedUsers := warnedUsers - {s.user};
                }
              }
            }
          } else {
            warnedUsers := warnedUsers - {s.user};
          }
        }
      } else {
        warnedUsers := warnedUsers - {s.user};
      }
    }

    method ObserveAll(now: int, samples: seq<Sample>) returns (slowed: seq<UserInfo>)
      requires Valid()
      modifies this
      ensures Valid() && Value() == TakeSamples(cfg, now, old(Value()), samples)
      ensures old(limitedUsers).Keys <= limitedUsers.Keys
      ensures forall user :: user in limitedUsers.Keys - old(limitedUsers).Keys ==> Slowed(cfg, user) in slowed
      ensures forall x :: x in slowed ==> exists user :: user in limitedUsers && x == Slowed(cfg, user)
    {
      hide TakeSample, Slowed;
      slowed := [];
      ghost var start := Value();
      for n := 0 to |samples|
        invariant Valid() && Value() == TakeSamples(cfg, now, start, samples[..n])
        invariant start.limited.Keys <= limitedUsers.Keys
        invariant forall user :: user in limitedUsers.Keys - start.limited.Keys ==> Slowed(cfg, user) in slowed
        invariant forall x :: x in slowed ==> exists user :: user in limitedUsers && x == Slowed(cfg, user)
      {
        var one := Observe(now, samples[n]);
        if one.Some? {
          slowed := slowed + [one.value];
        }
        assert samples[..n + 1][..n] == samples[..n];
      }
      assert samples[..|samples|] == samples;
    }

    /** One monitor pass: release, then sample every listed user; the two lists go to the limiter. */
    method Pass(now: int, samples: seq<Sample>) returns (released: seq<UserInfo>, slowed: seq<UserInfo>)
      requires Valid()
      modifies this
      ensures Valid() && Value() == TakeSamples(cfg, now, Unlocked(cfg, now, old(Value())), samples)
      ensures forall user ::
        user in released <==> cfg.limit > 0 && user in old(limitedUsers) && now > old(limitedUsers)[user].end
      ensures forall user ::
        user in limitedUsers && (user !in old(limitedUsers) || user in released) ==> Slowed(cfg, user) in slowed
      ensures forall x :: x in slowed ==> exists user :: user in limitedUsers && x == Slowed(cfg, user)
    {
      hide TakeSamples, Slowed;
      released := Unlock(now);
      slowed := ObserveAll(now, samples);
    }
  }

  /******* Whole runs *******/

  datatype Step = Release(now: int) | Observation(now: int, sample: Sample)

  /** `history` keeps, for each user, whether each sample taken while unlimited was over, since it was last limited. */
  datatype World = World(st: State, history: map<UserInfo, seq<bool>>)

  const START := World(State(map[], map[]), map[])

  function HistoryOf(w: World, user: UserInfo): seq<bool> {
    if user in w.history then w.history[user] else []
  }

  function Apply(cfg: Config, w: World, step: Step): World {
    match step
    case Release(now) => w.(st := Unlocked(cfg, now, w.st))
    case Observation(now, s) =>
      var st := TakeSample(cfg, now, w.st, s);
      if s.user in w.st.limited then w.(st := st)
      else World(st, w.history[s.user := if s.user in st.limited then [] else HistoryOf(w, s.user) + [Exceeds(cfg, s)]])
  }

  function After(cfg: Config, run: seq<Step>): World {
    if run == [] then START else Apply(cfg, After(cfg, run[..|run| - 1]), run[|run| - 1])
  }

  /** Over-threshold samples in a row that lead to a limit. */
  function Needed(cfg: Config): int {
    if cfg.warnTimes <= 0 then 1 else cfg.warnTimes + 1
  }

  /** The last `n` samples exist and are all over. */
  predicate LastAllOver(h: seq<bool>, n: int) {
    n <= |h| && forall i :: 0 <= i && |h| - n <= i < |h| ==> h[i]
  }

  function Trailing(h: seq<bool>): nat {
    if h == [] || !h[|h| - 1] then 0 else 1 + Trailing(h[..|h| - 1])
  }

  lemma {:induction false} TrailingMeans(h: seq<bool>, n: int)
    requires n >= 0
    ensures Trailing(h) <= |h|
    ensures LastAllOver(h, n) <==> n <= Trailing(h)
  {
    if h != [] && h[|h| - 1] {
      var front := h[..|h| - 1];
      if n > 0 {
        TrailingMeans(front, n - 1);
        assert LastAllOver(front, n - 1) ==> LastAllOver(h, n);
      } else {
        TrailingMeans(front, 0);
      }
    }
  }

  lemma TrailingAppend(h: seq<bool>, over: bool)
    ensures Trailing(h + [over]) == if over then Trailing(h) + 1 else 0
  {
    assert (h + [over])[..|h|] == h;
  }

  /** Warnings count the current row of over-threshold samples; nobody is warned and limited at once. */
  predicate UserInv(cfg: Config, w: World, user: UserInfo) {
    && (user in w.st.limited ==>
      user !in w.st.warned && HistoryOf(w, user) == [] && w.st.limited[user].origin == user.speedLimit)
    && (user in w.st.warned ==> w.st.warned[user] > 0)
    && Warnings(w.st.warned, user) == Trailing(HistoryOf(w, user))
    && Trailing(HistoryOf(w, user)) < Needed(cfg)
  }

  ghost predicate Inv(cfg: Config, w: World) {
    forall user :: UserInv(cfg, w, user)
  }

  lemma StepUserInv(cfg: Config, w: World, step: Step, user: UserInfo)
    requires cfg.limit > 0 && UserInv(cfg, w, user)
    ensures UserInv(cfg, Apply(cfg, w, step), user)
  {
    hide Over, Exceeds;
    if step.Observation? && step.sample.user == user {
      OverIs(cfg, step.sample);
      TrailingAppend(HistoryOf(w, user), Exceeds(cfg, step.sample));
    }
  }

  lemma {:induction false} RunInv(cfg: Config, run: seq<Step>)
    requires cfg.limit > 0
    ensures Inv(cfg, After(cfg, run))
  {
    hide Apply, UserInv;
    forall user
      ensures UserInv(cfg, After(cfg, run), user)
    {
      if run == [] {
        StartUserInv(cfg, user);
      } else {
        RunInv(cfg, run[..|run| - 1]);
        StepUserInv(cfg, After(cfg, run[..|run| - 1]), run[|run| - 1], user);
      }
    }
  }

  lemma StartUserInv(cfg: Config, user: UserInfo)
    ensures UserInv(cfg, START, user)
  {
  }

  /**
   * After every run, a sample limits a user exactly when it completes a row of the needed length among the samples
   * taken while the user was unlimited, counted from the user's last limit. The limit then ends after the configured
   * minutes and remembers the user's own speed.
   */
  lemma LimitedExactly(cfg: Config, run: seq<Step>, now: int, s: Sample)
    requires cfg.limit > 0
    requires s.user !in After(cfg, run).st.limited
    ensures var w := After(cfg, run);
      var limited := Apply(cfg, w, Observation(now, s)).st.limited;
      var bits := cfg.limit * 1000000 * cfg.updatePeriodic;
      var over := (s.up > 0 || s.down > 0) && (8 * s.up > bits || 8 * s.down > bits);
      var needed := if cfg.warnTimes <= 0 then 1 else cfg.warnTimes + 1;
      && (s.user in limited <==> LastAllOver(HistoryOf(w, s.user) + [over], needed))
      && (s.user in limited ==>
        limited[s.user] == LimitInfo(now + 60 * cfg.limitDuration, cfg.limitSpeed, s.user.speedLimit))
  {
    hide Over;
    var w := After(cfg, run);
    RunInv(cfg, run);
    assert UserInv(cfg, w, s.user);
    OverIs(cfg, s);
    TrailingAppend(HistoryOf(w, s.user), Over(cfg, s));
    TrailingMeans(HistoryOf(w, s.user) + [Over(cfg, s)], Needed(cfg));
  }

  /** After every run the warned and the limited are disjoint and each limited key carries its original speed. */
  lemma WarnedNotLimited(cfg: Config, run: seq<Step>)
    requires cfg.limit > 0
    ensures After(cfg, run).st.limited.Keys !! After(cfg, run).st.warned.Keys
    ensures KeysCarrySpeed(After(cfg, run).st.limited)
  {
    RunInv(cfg, run);
    forall user | user in After(cfg, run).st.limited
      ensures user !in After(cfg, run).st.warned && After(cfg, run).st.limited[user].origin == user.speedLimit
    {
      assert UserInv(cfg, After(cfg, run), user);
    }
  }

  /** With the feature off nobody is ever warned or limited. */
  lemma {:induction false} Disabled(cfg: Config, run: seq<Step>)
    requires cfg.limit <= 0
    ensures After(cfg, run).st == State(map[], map[])
  {
    if run != [] {
      Disabled(cfg, run[..|run| - 1]);
    }
  }

  function AfterFrom(cfg: Config, w: World, run: seq<Step>): World {
    if run == [] then w else Apply(cfg, AfterFrom(cfg, w, run[..|run| - 1]), run[|run| - 1])
  }

  predicate NoLaterRelease(run: seq<Step>, end: int) {
    forall i :: 0 <= i < |run| && run[i].Release? ==> run[i].now <= end
  }

  /** A limit stands, untouched, through every pass up to its end; the first pass after the end lifts it. */
  lemma {:induction false} LimitLasts(cfg: Config, w: World, run: seq<Step>, user: UserInfo, late: int)
    requires cfg.limit > 0 && user in w.st.limited
    requires NoLaterRelease(run, w.st.limited[user].end) && late > w.st.limited[user].end
    ensures user in AfterFrom(cfg, w, run).st.limited
    ensures AfterFrom(cfg, w, run).st.limited[user] == w.st.limited[user]
    ensures user !in AfterFrom(cfg, w, run + [Release(late)]).st.limited
  {
    assert (run + [Release(late)])[..|run|] == run;
    if run != [] {
      LimitLasts(cfg, w, run[..|run| - 1], user, late);
    }
  }

  /** A pass of the monitor is a release followed by one observation for each listed user. */
  function PassSteps(now: int, samples: seq<Sample>): seq<Step> {
    if samples == [] then [Release(now)]
    else PassSteps(now, samples[..|samples| - 1]) + [Observation(now, samples[|samples| - 1])]
  }

  lemma {:induction false} PassIsRun(cfg: Config, w: World, now: int, samples: seq<Sample>)
    ensures AfterFrom(cfg, w, PassSteps(now, samples)).st == TakeSamples(cfg, now, Unlocked(cfg, now, w.st), samples)
  {
    if samples == [] {
      assert [Release(now)][..0] == [];
    } else {
      var before := samples[..|samples| - 1];
      PassIsRun(cfg, w, now, before);
      var steps := PassSteps(now, before);
      var last := Observation(now, samples[|samples| - 1]);
      assert (steps + [last])[..|steps|] == steps;
    }
  }
}
