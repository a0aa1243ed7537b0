/**
 The limiter's request counter.  `counter++` is a load and a store without a lock, and
 the member string loads the counter once more, so the calls of one process that
 overlap can draw the same serial.
 */
module RequestCounter {
  import S = SlidingWindow

  /** How far a call of Allow has come: it has loaded the counter, or stored the increment. */
  datatype Call = Loaded(value: nat) | Stored

  /** The counter, the calls under way and, as history, the members drawn. */
  datatype Counter = Counter(value: nat, calls: map<nat, Call>, drawn: seq<S.Arrival>)

  datatype Act =
    | Load(c: nat)
    | Store(c: nat)
    | Draw(c: nat, now: int)

  predicate Init(s: Counter) {
    s == Counter(0, map[], [])
  }

  predicate Enabled(s: Counter, a: Act) {
    match a
    case Load(c) => c !in s.calls
    case Store(c) => c in s.calls && s.calls[c].Loaded?
    case Draw(c, _) => c in s.calls && s.calls[c].Stored?
  }

  function Do(s: Counter, a: Act): Counter
    requires Enabled(s, a)
  {
    match a
    case Load(c) => s.(calls := s.calls[c := Loaded(s.value)])
    case Store(c) => s.(value := s.calls[c].value + 1, calls := s.calls[c := Stored])
    case Draw(c, now) => s.(calls := s.calls - {c}, drawn := s.drawn + [S.Arrival(now, s.value)])
  }

  ghost predicate Run(ss: seq<Counter>, acts: seq<Act>) {
    && |ss| == |acts| + 1 && Init(ss[0])
    && forall i :: 0 <= i < |acts| ==> Enabled(ss[i], acts[i]) && ss[i + 1] == Do(ss[i], acts[i])
  }

  /** Calls come one at a time: none begins while another is under way. */
  predicate Alone(s: Counter, a: Act) {
    a.Load? ==> s.calls == map[]
  }

  /** The serials drawn so far rise, and the next one will be higher still. */
  ghost predicate Rising(s: Counter) {
    && (forall i, j :: 0 <= i < j < |s.drawn| ==> s.drawn[i].serial < s.drawn[j].serial)
    && (forall i :: 0 <= i < |s.drawn| ==> s.drawn[i].serial <= s.value)
    && (forall c, d :: c in s.calls && d in s.calls ==> c == d)
    && (forall c :: c in s.calls && s.calls[c].Loaded? ==> s.calls[c].value == s.value)
    && (forall c, i :: c in s.calls && s.calls[c].Stored? && 0 <= i < |s.drawn| ==> s.drawn[i].serial < s.value)
  }

  lemma RisingStep(s: Counter, a: Act)
    requires Rising(s) && Enabled(s, a) && Alone(s, a)
    ensures Rising(Do(s, a))
  {
  }

  lemma {:induction false} RisingRun(ss: seq<Counter>, acts: seq<Act>, i: nat)
    requires Run(ss, acts) && i < |ss| && forall k :: 0 <= k < |acts| ==> Alone(ss[k], acts[k])
    ensures Rising(ss[i])
  {
    if i > 0 {
      RisingRun(ss, acts, i - 1);
      RisingStep(ss[i - 1], acts[i - 1]);
    }
  }

  /** If calls come one at a time, no two requests of the process carry the same member. */
  lemma OneAtATimeIsDistinct(ss: seq<Counter>, acts: seq<Act>, i: nat)
    requires Run(ss, acts) && i < |ss| && forall k :: 0 <= k < |acts| ==> Alone(ss[k], acts[k])
    ensures S.Distinct(ss[i].drawn)
  {
    RisingRun(ss, acts, i);
    S.RisingIsDistinct(ss[i].drawn);
  }

  /** Two calls that load the counter together store and draw the same serial. */
  lemma OverlappingCallsCollide(now: int) returns (ss: seq<Counter>, acts: seq<Act>)
    ensures Run(ss, acts) && !S.Distinct(ss[|acts|].drawn)
    ensures ss[|acts|].drawn == [S.Arrival(now, 1), S.Arrival(now, 1)]
  {
    acts := [Load(0), Load(1), Store(0), Store(1), Draw(0, now), Draw(1, now)];
    var s0 := Counter(0, map[], []);
    var s1 := Do(s0, acts[0]);
    var s2 := Do(s1, acts[1]);
    var s3 := Do(s2, acts[2]);
    var s4 := Do(s3, acts[3]);
    var s5 := Do(s4, acts[4]);
    var s6 := Do(s5, acts[5]);
    ss := [s0, s1, s2, s3, s4, s5, s6];
    assert ss[|acts|].drawn[1] == S.Arrival(now, 1);
  }

  /** Making the increment atomic would not be enough: the member is drawn by a further load. */
  lemma AtomicIncrementsCollide(now: int) returns (ss: seq<Counter>, acts: seq<Act>)
    ensures Run(ss, acts) && !S.Distinct(ss[|acts|].drawn)
    ensures forall k :: 0 <= k < |acts| && acts[k].Load? ==> k + 1 < |acts| && acts[k + 1] == Store(acts[k].c)
  {
    acts := [Load(0), Store(0), Load(1), Store(1), Draw(0, now), Draw(1, now)];
    var s0 := Counter(0, map[], []);
    var s1 := Do(s0, acts[0]);
    var s2 := Do(s1, acts[1]);
    var s3 := Do(s2, acts[2]);
    var s4 := Do(s3, acts[3]);
    var s5 := Do(s4, acts[4]);
    var s6 := Do(s5, acts[5]);
    ss := [s0, s1, s2, s3, s4, s5, s6];
    assert ss[|acts|].drawn[1] == S.Arrival(now, 2);
  }
}
