/** The stacker: collects the samples of one scalar PV and publishes them in batches of a fixed period. */
module Stackers {
  import opened TimeStamps
  import opened TimeTables
  import opened RowQueues

  /** Which optional columns are stacked. */
  datatype Config = Config(utag: bool, alarmSev: bool, alarmCond: bool, alarmMessage: bool)

  datatype Sample = Sample(sec: nat, nsec: nat, value: Cell, utag: Cell, severity: Cell, condition: Cell, message: Cell)

  const VALUE := ColumnSpec(Float64A, "value", "value")
  const UTAG := ColumnSpec(UInt64A, "utag", "utag")
  const ALARM_SEV := ColumnSpec(UInt16A, "severity", "severity")
  const ALARM_COND := ColumnSpec(UInt16A, "condition", "condition")
  const ALARM_MSG := ColumnSpec(StringA, "message", "message")

  function If<T>(b: bool, s: seq<T>): seq<T> { if b then s else [] }

  /** TimeTableScalar(config): the columns of the published table. */
  function SpecsFor(config: Config): seq<ColumnSpec> {
    FromDataColumns([VALUE] + If(config.utag, [UTAG]) + If(config.alarmSev, [ALARM_SEV])
                    + If(config.alarmCond, [ALARM_COND]) + If(config.alarmMessage, [ALARM_MSG]))
  }

  function Secs(s: seq<Sample>): seq<Cell> { seq(|s|, i requires 0 <= i < |s| => Int(s[i].sec)) }
  function Nanos(s: seq<Sample>): seq<Cell> { seq(|s|, i requires 0 <= i < |s| => Int(s[i].nsec)) }
  function Values(s: seq<Sample>): seq<Cell> { seq(|s|, i requires 0 <= i < |s| => s[i].value) }
  function Utags(s: seq<Sample>): seq<Cell> { seq(|s|, i requires 0 <= i < |s| => s[i].utag) }
  function Severities(s: seq<Sample>): seq<Cell> { seq(|s|, i requires 0 <= i < |s| => s[i].severity) }
  function Conditions(s: seq<Sample>): seq<Cell> { seq(|s|, i requires 0 <= i < |s| => s[i].condition) }
  function Messages(s: seq<Sample>): seq<Cell> { seq(|s|, i requires 0 <= i < |s| => s[i].message) }

  /** The columns publish() fills in; nothing is stored in the pulseId column. */
  function Filled(config: Config, secs: seq<Cell>, nanos: seq<Cell>, values: seq<Cell>, utags: seq<Cell>,
                  severities: seq<Cell>, conditions: seq<Cell>, messages: seq<Cell>): seq<seq<Cell>> {
    [secs, nanos, [], values] + If(config.utag, [utags]) + If(config.alarmSev, [severities])
    + If(config.alarmCond, [conditions]) + If(config.alarmMessage, [messages])
  }

  /** The columns filled in for a batch. */
  function FilledFor(config: Config, batch: seq<Sample>): (data: seq<seq<Cell>>)
    ensures |data| == |SpecsFor(config)| && |data| >= NUM_TIME_COLS
    ensures |data[0]| == |batch| && |data[2]| == 0
  {
    Filled(config, Secs(batch), Nanos(batch), Values(batch), Utags(batch), Severities(batch), Conditions(batch),
      Messages(batch))
  }

  /** The table posted for a batch. */
  function TableOf(config: Config,
        batch: seq<Sample>): Value { WithColumns(SpecsFor(config), FilledFor(config, batch)) }

  lemma NothingFilled(config: Config)
    ensures forall i :: 0 <= i < |FilledFor(config, [])| ==> |FilledFor(config, [])[i]| == 0
  {
  }

  /** With its pulseId column empty, a posted batch does not satisfy the validation of its own type. */
  lemma PublishedTableInvalid(config: Config, batch: seq<Sample>)
    ensures Fits(SpecsFor(config), TableOf(config, batch)) == (batch == [])
  {
    TypeRoundTrip(SpecsFor(config), FilledFor(config, batch));
    if batch == [] {
      NothingFilled(config);
    }
  }

  lemma ColumnsSnoc(b: seq<Sample>, s: Sample)
    ensures Secs(b + [s]) == Secs(b) + [Int(s.sec)] && Nanos(b + [s]) == Nanos(b) + [Int(s.nsec)]
    ensures Values(b + [s]) == Values(b) + [s.value] && Utags(b + [s]) == Utags(b) + [s.utag]
    ensures Severities(b + [s]) == Severities(b) + [s.severity] && Conditions(b + [s]) == Conditions(b) + [s.condition]
    ensures Messages(b + [s]) == Messages(b) + [s.message]
  {
  }

  // ----- the state machine -----

  function TimeOf(s: Sample): nat { s.sec * NSEC_PER_SEC + s.nsec }

  /** Samples are compared by seconds and then nanoseconds, and their distance is in nanoseconds. */
  lemma TimesInNanoseconds(a: Sample, b: Sample)
    requires a.nsec < 1_000_000_000 && b.nsec < 1_000_000_000
    ensures TimeOf(a) < TimeOf(b) <==> a.sec < b.sec || (a.sec == b.sec && a.nsec < b.nsec)
    ensures TimeOf(b) - TimeOf(a) == (b.sec - a.sec) * 1_000_000_000 + (b.nsec - a.nsec)
  {
    TicksOrder(TimeStamp(a.sec, a.nsec, 0), TimeStamp(b.sec, b.nsec, 0));
  }

  /** The samples collected since the last publication, and the batches published. */
  datatype State = State(buffer: seq<Sample>, batches: seq<seq<Sample>>)

  function Last(s: seq<Sample>): Sample
    requires s != []
  {
    s[|s| - 1]
  }

  /** A sample that does not come after the last one empties the buffer and is dropped itself. */
  function Pushed(st: State, s: Sample, period: int): State {
    if st.buffer != [] && TimeOf(s) <= TimeOf(Last(st.buffer)) then State([], st.batches)
    else if st.buffer != [] && TimeOf(s) - TimeOf(st.buffer[0]) >= period then State([s], st.batches + [st.buffer])
    else State(st.buffer + [s], st.batches)
  }

  class Stacker {
    const config: Config
    const period: int
    var secondsPastEpoch: seq<Cell>
    var nanoseconds: seq<Cell>
    var values: seq<Cell>
    var utags: seq<Cell>
    var severities: seq<Cell>
    var conditions: seq<Cell>
    var messages: seq<Cell>
    var posted: seq<Value>
    ghost var state: State

    ghost predicate Columns()
      reads this
    {
      var b := state.buffer;
      && secondsPastEpoch == Secs(b) && nanoseconds == Nanos(b) && values == Values(b)
      && utags == If(config.utag, Utags(b)) && severities == If(config.alarmSev, Severities(b))
      && conditions == If(config.alarmCond, Conditions(b)) && messages == If(config.alarmMessage, Messages(b))
    }

    ghost predicate Valid()
      reads this
    {
      && Columns()
      && posted == seq(|state.batches|, k requires 0 <= k < |state.batches| reads this =>
                         TableOf(config, state.batches[k]))
    }

    constructor (config: Config, period: int)
      ensures Valid() && state == State([], [])
      ensures this.config == config && this.period == period
    {
      this.config, this.period := config, period;
      secondsPastEpoch, nanoseconds, values, utags, severities, conditions, messages := [], [], [], [], [], [], [];
      posted, state := [], State([], []);
    }

    /** The time of a buffered sample, read back from the vectors. */
    function TimeAt(i: nat): (t: nat)
      requires Columns() && i < |secondsPastEpoch|
      reads this
      ensures i < |state.buffer| && t == TimeOf(state.buffer[i])
    {
      AsNat(secondsPastEpoch[i]) * NSEC_PER_SEC + AsNat(nanoseconds[i])
    }

    method Push(s: Sample)
      requires Valid()
      modifies this
      ensures Valid() && state == Pushed(old(state), s, period)
    {
      var n := |secondsPastEpoch|;
      if n > 0 {
        if TimeOf(s) <= TimeAt(n - 1) {
          Reset();
          return;
        }
        if TimeOf(s) - TimeAt(0) >= period {
          Publish();
          Reset();
        }
      }
      Append(s);
    }

    method Append(s: Sample)
      requires Valid()
      modifies this
      ensures Valid() && state == old(state).(buffer := old(state).buffer + [s])
    {
      ColumnsSnoc(state.buffer, s);
      secondsPastEpoch := secondsPastEpoch + [Int(s.sec)];
      nanoseconds := nanoseconds + [Int(s.nsec)];
      values := values + [s.value];
      if config.utag { utags := utags + [s.utag]; }
      if config.alarmSev { severities := severities + [s.severity]; }
      if config.alarmCond { conditions := conditions + [s.condition]; }
      if config.alarmMessage { messages := messages + [s.message]; }
      state := state.(buffer := state.buffer + [s]);
    }

    method Publish()
      requires Valid()
      modifies this
      ensures Valid() && state == old(state).(batches := old(state).batches + [old(state).buffer])
    {
      var columns := Filled(config, secondsPastEpoch, nanoseconds, values, utags, severities, conditions, messages);
      posted := posted + [WithColumns(SpecsFor(config), columns)];
      state := state.(batches := state.batches + [state.buffer]);
    }

    method Reset()
      requires Valid()
      modifies this
      ensures Valid() && state == old(state).(buffer := [])
    {
      secondsPastEpoch, nanoseconds, values, utags, severities, conditions, messages := [], [], [], [], [], [], [];
      state := state.(buffer := []);
    }
  }

  // ----- runs -----

  /** The state after pushing all samples, in order. */
  function Run(input: seq<Sample>, period: int): State {
    if input == [] then State([], []) else Pushed(Run(input[..|input| - 1], period), input[|input| - 1], period)
  }

  method PushAll(stacker: Stacker, input: seq<Sample>)
    requires stacker.Valid() && stacker.state == State([], [])
    modifies stacker
    ensures stacker.Valid() && stacker.state == Run(input, stacker.period)
  {
    for i := 0 to |input|
      invariant stacker.Valid() && stacker.state == Run(input[..i], stacker.period)
    {
      assert input[..i + 1][..i] == input[..i];
      stacker.Push(input[i]);
    }
    assert input[..|input|] == input;
  }

  ghost predicate Increasing(s: seq<Sample>) {
    forall i, j :: 0 <= i < j < |s| ==> TimeOf(s[i]) < TimeOf(s[j])
  }

  /** A batch: not empty, strictly increasing, and shorter than the period. */
  ghost predicate SoundBatch(b: seq<Sample>, period: int) {
    b != [] && Increasing(b) && TimeOf(Last(b)) - TimeOf(b[0]) < period
  }

  /** For every input, published batches are sound, and the buffer is one as soon as it is not empty. */
  lemma {:induction false} BatchesSound(input: seq<Sample>, period: int)
    requires period > 0
    ensures forall k :: 0 <= k < |Run(input, period).batches| ==> SoundBatch(Run(input, period).batches[k], period)
    ensures Run(input, period).buffer != [] ==> SoundBatch(Run(input, period).buffer, period)
  {
    if input != [] { BatchesSound(input[..|input| - 1], period); }
  }

  function Total(st: State): seq<Sample> { Flatten(st.batches) + st.buffer }

  lemma TotalGrows(st: State, s: Sample, period: int)
    ensures var st' := Pushed(st, s, period);
      if st.buffer != [] && TimeOf(s) <= TimeOf(Last(st.buffer)) then |Total(st')| < |Total(st)|
      else Total(st') == Total(st) + [s]
  {
    FlattenSnoc(st.batches, st.buffer);
  }

  lemma IncreasingSnoc(input: seq<Sample>)
    requires |input| > 1
    ensures var n := |input| - 1;
      Increasing(input) <==> Increasing(input[..n]) && TimeOf(input[n - 1]) < TimeOf(input[n])
  {
  }

  /**
   * Batches and buffer partition the input exactly when the input is strictly
   * increasing; any other input loses samples.
   */
  lemma {:induction false} NothingLostIff(input: seq<Sample>, period: int)
    ensures Total(Run(input, period)) == input <==> Increasing(input)
    ensures !Increasing(input) ==> |Total(Run(input, period))| < |input|
    ensures Increasing(input) && input != [] ==>
      Run(input, period).buffer != [] && Last(Run(input, period).buffer) == Last(input)
  {
    if input != [] {
      var n := |input| - 1;
      var st := Run(input[..n], period);
      NothingLostIff(input[..n], period);
      TotalGrows(st, input[n], period);
      assert input == input[..n] + [input[n]];
      if n > 0 { IncreasingSnoc(input); }
    }
  }

  /** Batches start at least a period apart, and so does the buffer behind the last batch. */
  ghost predicate Spaced(st: State, period: int) {
    && (forall k :: 0 <= k < |st.batches| ==> st.batches[k] != [])
    && (forall k :: 0 < k < |st.batches| ==> TimeOf(st.batches[k][0]) - TimeOf(st.batches[k - 1][0]) >= period)
    && (st.batches != [] && st.buffer != [] ==>
          TimeOf(st.buffer[0]) - TimeOf(st.batches[|st.batches| - 1][0]) >= period)
  }

  lemma SpacedKept(st: State, s: Sample, period: int, st': State)
    requires Spaced(st, period) && st' == Pushed(st, s, period)
    requires st.buffer == [] ==> st.batches == []
    ensures Spaced(st', period)
  {
  }

  /** With strictly increasing input, batch starts are at least a period apart. */
  lemma {:induction false} StartsApart(input: seq<Sample>, period: int)
    requires Increasing(input)
    ensures Spaced(Run(input, period), period)
  {
    if input != [] {
      var n := |input| - 1;
      StartsApart(input[..n], period);
      NothingLostIff(input[..n], period);
      SpacedKept(Run(input[..n], period), input[n], period, Run(input, period));
    }
  }

  // ----- what a posted table holds -----

  /** The column has this name and type, and the given cell for every sample of the batch. */
  ghost predicate Holds(c: Column, typ: TypeCode, name: string, batch: seq<Sample>, cell: Sample -> Cell) {
    && c.typ == typ && c.name == name && |c.data| == |batch|
    && forall i :: 0 <= i < |batch| ==> c.data[i] == cell(batch[i])
  }

  /**
   * Seconds, nanoseconds, an empty pulseId and the values come first; behind
   * them, in this order, those of tag, severity, condition and message that are
   * configured, each with the cells of the samples.
   */
  lemma PostedColumns(config: Config, batch: seq<Sample>)
    ensures var v := TableOf(config, batch); v.Value? && v.columns.Some?
    ensures var cs := TableOf(config, batch).columns.value;
      var a := 4 + if config.utag then 1 else 0;
      var b := a + if config.alarmSev then 1 else 0;
      var d := b + if config.alarmCond then 1 else 0;
      && |cs| == d + (if config.alarmMessage then 1 else 0)
      && Holds(cs[0], UInt32A, "secondsPastEpoch", batch, (s: Sample) => Int(s.sec))
      && Holds(cs[1], UInt32A, "nanoseconds", batch, (s: Sample) => Int(s.nsec))
      && cs[2].name == "pulseId" && cs[2].data == []
      && Holds(cs[3], Float64A, "value", batch, (s: Sample) => s.value)
      && (config.utag ==> Holds(cs[4], UInt64A, "utag", batch, (s: Sample) => s.utag))
      && (config.alarmSev ==> Holds(cs[a], UInt16A, "severity", batch, (s: Sample) => s.severity))
      && (config.alarmCond ==> Holds(cs[b], UInt16A, "condition", batch, (s: Sample) => s.condition))
      && (config.alarmMessage ==> Holds(cs[d], StringA, "message", batch, (s: Sample) => s.message))
  {
    OptionalAt(TIME_COLUMNS + [VALUE], config, UTAG, ALARM_SEV, ALARM_COND, ALARM_MSG, SpecsFor(config));
    OptionalAt([Secs(batch), Nanos(batch), [], Values(batch)], config, Utags(batch), Severities(batch),
      Conditions(batch), Messages(batch), FilledFor(config, batch));
    forall k | 0 <= k < |SpecsFor(config)|
      ensures TableOf(config, batch).columns.value[k] ==
              Column(SpecsFor(config)[k].typ, SpecsFor(config)[k].name, FilledFor(config, batch)[k])
    {
    }
  }

  /** Every column is labelled with its name. */
  lemma PostedLabels(config: Config, batch: seq<Sample>)
    ensures var v := TableOf(config, batch);
      && v.Value? && v.columns.Some? && v.labels.Some? && |v.labels.value| == |v.columns.value|
      && forall k :: 0 <= k < |v.labels.value| ==> v.labels.value[k] == v.columns.value[k].name
  {
    forall k | 0 <= k < |SpecsFor(config)| ensures SpecsFor(config)[k].labelText == SpecsFor(config)[k].name {
    }
  }

  /** Where the configured elements stand behind the first ones. */
  lemma OptionalAt<T>(base: seq<T>, config: Config, x: T, y: T, z: T, w: T, all: seq<T>)
    requires |base| == 4
    requires all == base + If(config.utag, [x]) + If(config.alarmSev, [y]) + If(config.alarmCond, [z])
                    + If(config.alarmMessage, [w])
          || all == base[..3] + (base[3..] + If(config.utag, [x]) + If(config.alarmSev, [y])
                                 + If(config.alarmCond, [z]) + If(config.alarmMessage, [w]))
    ensures var a := 4 + if config.utag then 1 else 0;
      var b := a + if config.alarmSev then 1 else 0;
      var d := b + if config.alarmCond then 1 else 0;
      && |all| == d + (if config.alarmMessage then 1 else 0)
      && all[0] == base[0] && all[1] == base[1] && all[2] == base[2] && all[3] == base[3]
      && (config.utag ==> all[4] == x) && (config.alarmSev ==> all[a] == y)
      && (config.alarmCond ==> all[b] == z) && (config.alarmMessage ==> all[d] == w)
  {
  }

  // ----- what is posted stays, and a late sample starts afresh -----

  lemma {:induction false} RunSnoc(input: seq<Sample>, s: Sample, period: int)
    ensures Run(input + [s], period) == Pushed(Run(input, period), s, period)
  {
    assert (input + [s])[..|input|] == input;
  }

  /** Later samples add batches and take none back. */
  lemma {:induction false} BatchesAreFinal(input: seq<Sample>, later: seq<Sample>, period: int)
    ensures Run(input, period).batches <= Run(input + later, period).batches
    decreases |later|
  {
    if later == [] {
      assert input + later == input;
    } else {
      var n := |later| - 1;
      BatchesAreFinal(input, later[..n], period);
      RunSnoc(input + later[..n], later[n], period);
      assert (input + later[..n]) + [later[n]] == input + later;
    }
  }

  /** A late sample is dropped with all that is buffered, and the samples behind it are stacked as from the start. */
  lemma {:induction false} StartsAfresh(input: seq<Sample>, late: Sample, later: seq<Sample>, period: int)
    requires var b := Run(input, period).buffer; b != [] && TimeOf(late) <= TimeOf(Last(b))
    ensures Run((input + [late]) + later, period) ==
            State(Run(later, period).buffer, Run(input, period).batches + Run(later, period).batches)
    decreases |later|
  {
    RunSnoc(input, late, period);
    if later == [] {
      assert (input + [late]) + later == input + [late];
      assert Run(input, period).batches + [] == Run(input, period).batches;
    } else {
      var n := |later| - 1;
      StartsAfresh(input, late, later[..n], period);
      RunSnoc((input + [late]) + later[..n], later[n], period);
      assert ((input + [late]) + later[..n]) + [later[n]] == (input + [late]) + later;
      Regroup(Run(input, period).batches, Run(later[..n], period), later[n], period);
    }
  }

  lemma Regroup(before: seq<seq<Sample>>, st: State, s: Sample, period: int)
    ensures Pushed(State(st.buffer, before + st.batches), s, period) ==
            State(Pushed(st, s, period).buffer, before + Pushed(st, s, period).batches)
  {
    assert before + (st.batches + [st.buffer]) == (before + st.batches) + [st.buffer];
  }
}
