/** The session-wide throttle file behind refresh debouncing and once-per-window warnings. The file maps a key
    (`channel:scope`, or a warning key) to the time of its last launch; every launch also drops old entries.
    The two users differ only in how old an entry must be: six or four times the launcher's window. */
module SessionThrottle {

  const DEBOUNCE_FACTOR := 6.0
  const WARNING_FACTOR := 4.0

  type Times = map<string, real>

  function Max(a: real, b: real): real {
    if a < b then b else a
  }

  function Last(times: Times, key: string): real {
    if key in times then times[key] else 0.0
  }

  function Retention(ttl: real, factor: real): real {
    Max(ttl * factor, 60.0)
  }

  function Prune(times: Times, now: real, keep: real): Times {
    map k | k in times && now - times[k] <= keep :: times[k]
  }

  predicate Launches(times: Times, key: string, ttl: real, now: real) {
    ttl <= 0.0 || now - Last(times, key) >= ttl
  }

  /** A window of zero or less launches every time and leaves the file alone. */
  function Record(times: Times, key: string, ttl: real, now: real, factor: real): Times {
    if ttl <= 0.0 || !Launches(times, key, ttl, now) then times
    else Prune(times[key := now], now, Retention(ttl, factor))
  }

  class SessionFile {
    var times: Times

    method ShouldLaunch(key: string, ttl: real, now: real, factor: real) returns (launch: bool)
      modifies this
      ensures launch == Launches(old(times), key, ttl, now)
      ensures times == Record(old(times), key, ttl, now, factor)
    {
      if ttl <= 0.0 {
        return true;
      }
      var last := if key in times then times[key] else 0.0;
      if now - last < ttl {
        return false;
      }
      times := times[key := now];
      times := Prune(times, now, Retention(ttl, factor));
      return true;
    }
  }

  // ---------------------------------------------------------------- runs of one session

  datatype Call = Call(key: string, now: real)

  /** A session: the window of every key, and the calls made, starting without a file. */
  datatype Session = Session(ttl: string -> real, factor: real, calls: seq<Call>)

  function TimesAt(s: Session, i: nat): Times
    requires i <= |s.calls|
  {
    if i == 0 then map[]
    else
      var c := s.calls[i - 1];
      Record(TimesAt(s, i - 1), c.key, s.ttl(c.key), c.now, s.factor)
  }

  predicate Launched(s: Session, i: nat)
    requires i < |s.calls|
  {
    Launches(TimesAt(s, i), s.calls[i].key, s.ttl(s.calls[i].key), s.calls[i].now)
  }

  /** The full-history answer: an earlier launch of the same key lies less than one window back. */
  ghost predicate RecentLaunch(s: Session, i: nat)
    requires i < |s.calls|
  {
    exists j :: 0 <= j < i && s.calls[j].key == s.calls[i].key && Launched(s, j) &&
      s.calls[i].now - s.calls[j].now < s.ttl(s.calls[i].key)
  }

  ghost predicate RefinesFullHistory(s: Session) {
    forall i :: 0 <= i < |s.calls| ==> (Launched(s, i) <==> !RecentLaunch(s, i))
  }

  /** The clock does not go back, has passed every window in use, and only keys of `keys` are called. */
  ghost predicate Admissible(s: Session, keys: set<string>) {
    && (forall i, j :: 0 <= i < j < |s.calls| ==> s.calls[i].now <= s.calls[j].now)
    && (forall i :: 0 <= i < |s.calls| ==> s.calls[i].key in keys && s.calls[i].now >= s.ttl(s.calls[i].key))
  }

  /** No launch drops an entry that another key still needs. */
  ghost predicate Retains(ttl: string -> real, factor: real, keys: set<string>) {
    forall k, d :: k in keys && d in keys && ttl(k) > 0.0 && ttl(d) > 0.0 ==> ttl(k) <= Retention(ttl(d), factor)
  }

  /** The file remembers every launch that still matters. */
  ghost predicate RemembersAll(s: Session, k: nat)
    requires k <= |s.calls|
  {
    forall j :: 0 <= j < k && Launched(s, j) && s.ttl(s.calls[j].key) > 0.0 ==>
      Remembered(TimesAt(s, k), s.calls[j], s.calls[k - 1].now, s.ttl(s.calls[j].key))
  }

  /** The file remembers nothing that did not happen. */
  ghost predicate RemembersOwn(s: Session, k: nat)
    requires k <= |s.calls|
  {
    forall key :: key in TimesAt(s, k) ==> LaunchedAt(s, k, Call(key, TimesAt(s, k)[key]))
  }

  ghost predicate LaunchedAt(s: Session, k: nat, c: Call)
    requires k <= |s.calls|
  {
    exists j :: 0 <= j < k && Launched(s, j) && s.calls[j] == c
  }

  ghost predicate Faithful(s: Session, k: nat)
    requires k <= |s.calls|
  {
    RemembersAll(s, k) && RemembersOwn(s, k)
  }

  predicate Remembered(times: Times, c: Call, now: real, ttl: real) {
    (c.key in times && c.now <= times[c.key]) || now - c.now > ttl
  }

  lemma RecordRemembers(
    times: Times, c: Call, before: real, key: string, ttl: real, now: real, factor: real, mine: real)
    requires Remembered(times, c, before, mine) && before <= now && c.now <= now
    requires ttl > 0.0 ==> mine <= Retention(ttl, factor)
    ensures Remembered(Record(times, key, ttl, now, factor), c, now, mine)
  {
  }

  lemma {:induction false} FileStaysFaithful(s: Session, keys: set<string>, k: nat)
    requires Admissible(s, keys) && Retains(s.ttl, s.factor, keys) && k <= |s.calls|
    ensures Faithful(s, k)
  {
    hide Admissible, Retains, RemembersAll, RemembersOwn;
    if k == 0 {
      NothingRemembered(s);
    } else {
      FileStaysFaithful(s, keys, k - 1);
      RemembersNext(s, keys, k);
      OwnNext(s, k);
    }
  }

  lemma NothingRemembered(s: Session)
    ensures RemembersAll(s, 0) && RemembersOwn(s, 0)
  {
  }

  lemma RemembersNext(s: Session, keys: set<string>, k: nat)
    requires Admissible(s, keys) && Retains(s.ttl, s.factor, keys) && 0 < k <= |s.calls|
    requires RemembersAll(s, k - 1)
    ensures RemembersAll(s, k)
  {
    hide Admissible, Retains, TimesAt, Launched, Remembered;
    forall j | 0 <= j < k && Launched(s, j) && s.ttl(s.calls[j].key) > 0.0
      ensures Remembered(TimesAt(s, k), s.calls[j], s.calls[k - 1].now, s.ttl(s.calls[j].key))
    {
      if j < k - 1 {
        StillRemembered(s, keys, k, j);
      } else {
        OwnRemembered(s, k);
      }
    }
  }

  lemma StillRemembered(s: Session, keys: set<string>, k: nat, j: nat)
    requires Admissible(s, keys) && Retains(s.ttl, s.factor, keys) && j < k - 1 && k <= |s.calls|
    requires s.ttl(s.calls[j].key) > 0.0
    requires Remembered(TimesAt(s, k - 1), s.calls[j], s.calls[k - 2].now, s.ttl(s.calls[j].key))
    ensures Remembered(TimesAt(s, k), s.calls[j], s.calls[k - 1].now, s.ttl(s.calls[j].key))
  {
    var c, d := s.calls[k - 1], s.calls[j];
    assert TimesAt(s, k) == Record(TimesAt(s, k - 1), c.key, s.ttl(c.key), c.now, s.factor);
    hide Admissible, Retains, TimesAt, Record, Remembered, Retention;
    RetainedLongEnough(s, keys, j, k - 1);
    RecordRemembers(
      TimesAt(s, k - 1), d, s.calls[k - 2].now, c.key, s.ttl(c.key), c.now, s.factor, s.ttl(d.key));
  }

  lemma OwnRemembered(s: Session, k: nat)
    requires 0 < k <= |s.calls| && Launched(s, k - 1) && s.ttl(s.calls[k - 1].key) > 0.0
    ensures Remembered(TimesAt(s, k), s.calls[k - 1], s.calls[k - 1].now, s.ttl(s.calls[k - 1].key))
  {
    var c := s.calls[k - 1];
    assert TimesAt(s, k) == Record(TimesAt(s, k - 1), c.key, s.ttl(c.key), c.now, s.factor);
    hide TimesAt, Record, Remembered;
    RecordsOwn(TimesAt(s, k - 1), c, s.ttl(c.key), s.factor);
  }

  lemma RetainedLongEnough(s: Session, keys: set<string>, j: nat, k: nat)
    requires Admissible(s, keys) && Retains(s.ttl, s.factor, keys) && j < k < |s.calls|
    requires s.ttl(s.calls[j].key) > 0.0
    ensures s.ttl(s.calls[k].key) > 0.0 ==> s.ttl(s.calls[j].key) <= Retention(s.ttl(s.calls[k].key), s.factor)
    ensures s.calls[k - 1].now <= s.calls[k].now && s.calls[j].now <= s.calls[k].now
  {
    hide Retention;
  }

  lemma OwnNext(s: Session, k: nat)
    requires 0 < k <= |s.calls| && RemembersOwn(s, k - 1)
    ensures RemembersOwn(s, k)
  {
    var c, times := s.calls[k - 1], TimesAt(s, k - 1);
    assert TimesAt(s, k) == Record(times, c.key, s.ttl(c.key), c.now, s.factor);
    assert Launched(s, k - 1) == Launches(times, c.key, s.ttl(c.key), c.now);
    hide TimesAt, Record, Launches, Launched;
    forall key | key in TimesAt(s, k)
      ensures LaunchedAt(s, k, Call(key, TimesAt(s, k)[key]))
    {
      RecordOrigin(times, c, s.ttl(c.key), s.factor, key);
      if key in times && times[key] == TimesAt(s, k)[key] {
        assert LaunchedAt(s, k - 1, Call(key, times[key]));
      }
    }
  }

  lemma RecordsOwn(times: Times, c: Call, ttl: real, factor: real)
    requires ttl > 0.0 && Launches(times, c.key, ttl, c.now)
    ensures Remembered(Record(times, c.key, ttl, c.now, factor), c, c.now, ttl)
  {
  }

  lemma RecordOrigin(times: Times, c: Call, ttl: real, factor: real, key: string)
    requires key in Record(times, c.key, ttl, c.now, factor)
    ensures (key in times && times[key] == Record(times, c.key, ttl, c.now, factor)[key]) ||
            (Launches(times, c.key, ttl, c.now) && c == Call(key, Record(times, c.key, ttl, c.now, factor)[key]))
  {
  }

  lemma FaithfulAnswers(s: Session, keys: set<string>, i: nat)
    requires Admissible(s, keys) && i < |s.calls| && Faithful(s, i)
    ensures Launched(s, i) <==> !RecentLaunch(s, i)
  {
    var c, times := s.calls[i], TimesAt(s, i);
    if !Launched(s, i) {
      assert LaunchedAt(s, i, Call(c.key, times[c.key]));
      assert RecentLaunch(s, i);
    }
  }

  /** Dropping old entries is invisible: every call answers as if the full launch history had been kept. */
  lemma PruningIsInvisible(s: Session, keys: set<string>)
    requires Admissible(s, keys) && Retains(s.ttl, s.factor, keys)
    ensures RefinesFullHistory(s)
  {
    forall i | 0 <= i < |s.calls| ensures Launched(s, i) <==> !RecentLaunch(s, i) {
      FileStaysFaithful(s, keys, i);
      FaithfulAnswers(s, keys, i);
    }
  }

  /** The three calls that expose a retention shorter than a window: launch `k`, let `d` drop its entry, and
      ask for `k` again before its window is over. */
  function Exposing(ttl: string -> real, factor: real, k: string, d: string): Session {
    var start := Max(ttl(k), 0.0) + Max(ttl(d), 0.0);
    var later := start + (ttl(k) + Retention(ttl(d), factor)) / 2.0;
    Session(ttl, factor, [Call(k, start), Call(d, later), Call(k, later)])
  }

  lemma RetentionIsLonger(ttl: real, factor: real)
    requires factor >= 1.0 && ttl > 0.0
    ensures ttl <= Retention(ttl, factor)
  {
    assert ttl * factor - ttl == ttl * (factor - 1.0);
  }

  lemma ShortRetentionShows(ttl: string -> real, factor: real, keys: set<string>, k: string, d: string)
    requires factor >= 1.0 && k in keys && d in keys && ttl(k) > 0.0 && ttl(d) > 0.0
    requires ttl(k) > Retention(ttl(d), factor)
    ensures Admissible(Exposing(ttl, factor, k, d), keys) && !RefinesFullHistory(Exposing(ttl, factor, k, d))
  {
    var s := Exposing(ttl, factor, k, d);
    RetentionIsLonger(ttl(d), factor);
    assert k != d;
    var start, later := s.calls[0].now, s.calls[1].now;
    assert Retention(ttl(d), factor) < later - start < ttl(k);
    assert TimesAt(s, 0) == map[];
    assert TimesAt(s, 1) == Record(map[], k, ttl(k), start, factor);
    assert TimesAt(s, 1) == map[k := start];
    assert TimesAt(s, 2) == Record(TimesAt(s, 1), d, ttl(d), later, factor);
    assert k !in TimesAt(s, 2);
    assert Launched(s, 0) && Launched(s, 2);
    assert s.calls[0].key == s.calls[2].key;
    assert RecentLaunch(s, 2);
  }

  /** The retention rule is exact: a set of windows is served as if nothing were ever dropped, over all
      admissible sessions, if and only if no window is longer than what another one retains. */
  lemma PruningIsInvisibleIffRetained(ttl: string -> real, factor: real, keys: set<string>)
    requires factor >= 1.0
    ensures (forall calls :: Admissible(Session(ttl, factor, calls), keys) ==>
               RefinesFullHistory(Session(ttl, factor, calls)))
            <==> Retains(ttl, factor, keys)
  {
    if Retains(ttl, factor, keys) {
      forall calls | Admissible(Session(ttl, factor, calls), keys)
        ensures RefinesFullHistory(Session(ttl, factor, calls))
      {
        PruningIsInvisible(Session(ttl, factor, calls), keys);
      }
    } else {
      var k, d :| k in keys && d in keys && ttl(k) > 0.0 && ttl(d) > 0.0 && ttl(k) > Retention(ttl(d), factor);
      ShortRetentionShows(ttl, factor, keys, k, d);
      assert Exposing(ttl, factor, k, d) == Session(ttl, factor, Exposing(ttl, factor, k, d).calls);
    }
  }

  /** The debounce file as it is configured: the background channels use one window and the synchronous vector
      refresh the larger of that and the probe cache's. Nothing is dropped too early exactly if background launches
      are not debounced at all or retain at least the probe cache's window. */
  lemma DebounceFileIff(ttl: string -> real, probe: real, debounce: real, keys: set<string>, background: string,
                        synchronous: string)
    requires background in keys && synchronous in keys
    requires ttl(background) == debounce && ttl(synchronous) == Max(probe, debounce)
    requires forall k :: k in keys ==> ttl(k) == debounce || ttl(k) == Max(probe, debounce)
    ensures (forall calls :: Admissible(Session(ttl, DEBOUNCE_FACTOR, calls), keys) ==>
               RefinesFullHistory(Session(ttl, DEBOUNCE_FACTOR, calls)))
            <==> debounce <= 0.0 || probe <= Max(6.0 * debounce, 60.0)
  {
    PruningIsInvisibleIffRetained(ttl, DEBOUNCE_FACTOR, keys);
    hide Admissible, RefinesFullHistory;
    if debounce > 0.0 && Retains(ttl, DEBOUNCE_FACTOR, keys) {
      assert ttl(synchronous) <= Retention(ttl(background), DEBOUNCE_FACTOR);
    }
    if Max(probe, debounce) > 0.0 {
      RetentionIsLonger(Max(probe, debounce), DEBOUNCE_FACTOR);
    }
  }

  /** The warning file: one window for all warnings, so nothing is ever dropped too early. */
  lemma WarningFileIsExact(s: Session, keys: set<string>, window: real)
    requires s.factor == WARNING_FACTOR && Admissible(s, keys) && forall k :: k in keys ==> s.ttl(k) == window
    ensures RefinesFullHistory(s)
  {
    if window > 0.0 {
      RetentionIsLonger(window, WARNING_FACTOR);
    }
    PruningIsInvisible(s, keys);
  }

  // ---------------------------------------------------------------- rate

  predicate LaunchIn(s: Session, i: nat, key: string, from: real, width: real)
    requires i < |s.calls|
  {
    s.calls[i].key == key && Launched(s, i) && from <= s.calls[i].now <= from + width
  }

  /** Launches of a key, among the first n calls, inside a time window. */
  function LaunchCount(s: Session, n: nat, key: string, from: real, width: real): nat
    requires n <= |s.calls|
  {
    if n == 0 then 0
    else LaunchCount(s, n - 1, key, from, width) + (if LaunchIn(s, n - 1, key, from, width) then 1 else 0)
  }

  /** The length of n windows laid end to end. */
  function Windows(n: nat, ttl: real): real {
    if n == 0 then 0.0 else Windows(n - 1, ttl) + ttl
  }

  lemma {:induction false} LaunchesSpread(s: Session, keys: set<string>, n: nat, key: string, from: real, width: real)
    requires Admissible(s, keys) && RefinesFullHistory(s) && n <= |s.calls|
    ensures var c := LaunchCount(s, n, key, from, width);
      c > 0 ==> exists j ::
        (0 <= j < n && LaunchIn(s, j, key, from, width) && s.calls[j].now >= from + Windows(c - 1, s.ttl(key)))
  {
    hide Launched, RefinesFullHistory, Admissible;
    if n > 0 {
      LaunchesSpread(s, keys, n - 1, key, from, width);
      var c := LaunchCount(s, n - 1, key, from, width);
      if LaunchIn(s, n - 1, key, from, width) && c > 0 {
        var j :| 0 <= j < n - 1 && LaunchIn(s, j, key, from, width) &&
          s.calls[j].now >= from + Windows(c - 1, s.ttl(key));
        ApartByWindow(s, j, n - 1);
      }
    }
  }

  lemma ApartByWindow(s: Session, j: nat, i: nat)
    requires RefinesFullHistory(s) && j < i < |s.calls| && s.calls[j].key == s.calls[i].key
    requires Launched(s, j) && Launched(s, i)
    ensures s.calls[i].now - s.calls[j].now >= s.ttl(s.calls[i].key)
  {
    assert !RecentLaunch(s, i);
  }

  /** Any time window of the given width sees at most floor(width / ttl) + 1 launches of one key. */
  lemma RateBound(s: Session, keys: set<string>, key: string, from: real, width: real)
    requires Admissible(s, keys) && Retains(s.ttl, s.factor, keys)
    requires s.ttl(key) > 0.0 && width >= 0.0
    ensures LaunchCount(s, |s.calls|, key, from, width) <= (width / s.ttl(key)).Floor + 1
  {
    hide Admissible, Retains, RefinesFullHistory, Launched;
    PruningIsInvisible(s, keys);
    LaunchesSpread(s, keys, |s.calls|, key, from, width);
    var c, ttl := LaunchCount(s, |s.calls|, key, from, width), s.ttl(key);
    QuotientBound(if c > 0 then c - 1 else 0, ttl, width);
  }

  lemma {:induction false} WindowsIsProduct(n: nat, ttl: real)
    ensures Windows(n, ttl) == n as real * ttl
  {
    if n > 0 {
      WindowsIsProduct(n - 1, ttl);
      assert n as real * ttl == (n - 1) as real * ttl + ttl;
    }
  }

  lemma QuotientBound(n: nat, ttl: real, width: real)
    requires ttl > 0.0 && Windows(n, ttl) <= width
    ensures n <= (width / ttl).Floor
  {
    WindowsIsProduct(n, ttl);
    assert (width - n as real * ttl) / ttl == width / ttl - n as real;
  }

  /** What a recorded call leaves in the debounce file: itself, and what is at most six windows or a minute old. The
      warning file keeps four windows. */
  lemma FilesKeep(times: Times, key: string, ttl: real, now: real, k: string)
    requires ttl > 0.0 && Launches(times, key, ttl, now)
    ensures k in Record(times, key, ttl, now, DEBOUNCE_FACTOR) <==>
            k == key || (k in times && now - times[k] <= Max(6.0 * ttl, 60.0))
    ensures k in Record(times, key, ttl, now, WARNING_FACTOR) <==>
            k == key || (k in times && now - times[k] <= Max(4.0 * ttl, 60.0))
    ensures Record(times, key, ttl, now, DEBOUNCE_FACTOR)[key] == now
    ensures Record(times, key, ttl, now, WARNING_FACTOR)[key] == now
  {
  }
}
