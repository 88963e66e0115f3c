/**
 The FSBL's reading of the FMC EEPROM: the walk over the multirecord area of a 256-byte image to the
 DC-load record of output 0, and the choice of the VADJ rail from the limits it holds.
 */
module Fru {
  import opened Ledger

  type Byte = b: nat | b < 256

  const MAX_SIZE: nat := 256
  const HEADER_SIZE: nat := 5
  const DC_LOAD: nat := 2
  const U16: nat := 0x1_0000

  /** The limits read, zero if there is no such record, or an access outside the image. */
  datatype Outcome = Limits(min: nat, max: nat) | Overrun

  /** A 16-bit number, low byte first, in steps of 10 mV. */
  function Millivolts(low: Byte, high: Byte): nat {
    (high * 256 + low) * 10
  }

  // ---------------------------------------------------------------- the walk

  /** The limits in the record at `off`. */
  function LimitsAt(image: seq<Byte>, off: nat): Outcome {
    if off + 11 >= |image| then Overrun
    else Limits(Millivolts(image[off + 8], image[off + 9]), Millivolts(image[off + 10], image[off + 11]))
  }

  predicate IsVadj(image: seq<Byte>, off: nat)
    requires off + HEADER_SIZE < |image|
  {
    image[off] == DC_LOAD && image[off + HEADER_SIZE] % 16 == 0
  }

  /** Every byte the loop looks at in the record at `off` is in the image. */
  predicate InImage(image: seq<Byte>, off: nat) {
    off + 2 < |image| && (image[off] == DC_LOAD ==> off + HEADER_SIZE < |image|)
  }

  function Walk(image: seq<Byte>, off: nat): Outcome
    decreases |image| - off
  {
    if !InImage(image, off) then Overrun
    else if image[off] == DC_LOAD && IsVadj(image, off) then LimitsAt(image, off)
    else if image[off + 1] >= 0x80 then Limits(0, 0)
    else Walk(image, off + image[off + 2] + HEADER_SIZE)
  }

  /** Where the multirecord area starts, in units of 8 bytes. */
  function Area(image: seq<Byte>): nat
    requires |image| == MAX_SIZE
  {
    var units: nat := image[5];
    units * 8
  }

  function ReadVadj(image: seq<Byte>): Outcome
    requires |image| == MAX_SIZE
  {
    if image[0] == 1 && image[5] != 0 then Walk(image, Area(image)) else Limits(0, 0)
  }

  /** XFsbl_ReadMinMaxEepromVadj, once the image has been read. It stops where the original would read
      past the buffer. */
  method ReadMinMaxVadj(image: array<Byte>) returns (r: Outcome)
    requires image.Length == MAX_SIZE
    ensures r == ReadVadj(image[..])
  {
    var found, data, min, max := false, 0, 0, 0;
    if image[0] == 1 && image[5] != 0 {
      var off, more := Area(image[..]), true;
      while more
        invariant !found
        invariant ReadVadj(image[..]) == if more then Walk(image[..], off) else Limits(0, 0)
        decreases more, MAX_SIZE - off
      {
        if off + 2 >= MAX_SIZE { return Overrun; }
        var recordType, last, length := image[off], image[off + 1] >= 0x80, image[off + 2];
        if recordType == DC_LOAD {
          if off + HEADER_SIZE >= MAX_SIZE { return Overrun; }
          if image[off + HEADER_SIZE] % 16 == 0 {
            found, data := true, off + HEADER_SIZE;
            break;
          }
        }
        off := off + length + HEADER_SIZE;
        more := !last;
      }
      if found {
        if data + 6 >= MAX_SIZE { return Overrun; }
        min := Millivolts(image[data + 3], image[data + 4]);
        max := Millivolts(image[data + 5], image[data + 6]);
      }
    }
    return Limits(min, max);
  }

  // ---------------------------------------------------------------- as parsing into records

  datatype Record = Record(kind: Byte, last: bool, body: seq<Byte>)

  /** The records of a chain, up to the one marked last; none if one does not fit in the image. */
  function Parse(image: seq<Byte>, off: nat): Option<seq<Record>>
    decreases |image| - off
  {
    if off + HEADER_SIZE > |image| || off + HEADER_SIZE + image[off + 2] > |image| then None
    else
      var end := off + HEADER_SIZE + image[off + 2];
      var r := RecordAt(image, off);
      if r.last then Some([r])
      else match Parse(image, end) case Some(rs) => Some([r] + rs) case None => None
  }

  /** A DC-load record is long enough for an output number and three voltages. */
  predicate Complete(r: Record) {
    r.kind == DC_LOAD ==> |r.body| >= 7
  }

  predicate IsOutputZero(r: Record) {
    r.kind == DC_LOAD && |r.body| >= 7 && r.body[0] % 16 == 0
  }

  /** The first DC-load record of output 0. */
  function Pick(rs: seq<Record>): Option<Record> {
    if rs == [] then None else if IsOutputZero(rs[0]) then Some(rs[0]) else Pick(rs[1..])
  }

  lemma {:induction false} PickIsFirst(rs: seq<Record>)
    ensures Pick(rs).None? <==> forall r <- rs :: !IsOutputZero(r)
    ensures Pick(rs).Some? ==> exists i :: 0 <= i < |rs| && rs[i] == Pick(rs).value && IsOutputZero(rs[i])
                                            && forall j :: 0 <= j < i ==> !IsOutputZero(rs[j])
    decreases |rs|
  {
    if rs != [] {
      var rest := rs[1..];
      PickIsFirst(rest);
      assert rs == [rs[0]] + rest;
      if IsOutputZero(rs[0]) {
        assert rs[0] in rs;
      } else if Pick(rest).Some? {
        var i :| 0 <= i < |rest| && rest[i] == Pick(rest).value && IsOutputZero(rest[i])
                 && forall j :: 0 <= j < i ==> !IsOutputZero(rest[j]);
        assert rs[i + 1] == Pick(rs).value && rs[i + 1] in rs;
        forall j | 0 <= j < i + 1 ensures !IsOutputZero(rs[j]) { if j > 0 { assert rs[j] == rest[j - 1]; } }
      }
    }
  }

  function LimitsOf(r: Option<Record>): Outcome {
    if r.Some? && |r.value.body| >= 7
    then Limits(Millivolts(r.value.body[3], r.value.body[4]), Millivolts(r.value.body[5], r.value.body[6]))
    else Limits(0, 0)
  }

  /** The record whose header is at `off`. */
  function RecordAt(image: seq<Byte>, off: nat): Record
    requires off + HEADER_SIZE <= |image| && off + HEADER_SIZE + image[off + 2] <= |image|
  {
    Record(image[off], image[off + 1] >= 0x80, image[off + HEADER_SIZE..off + HEADER_SIZE + image[off + 2]])
  }

  /** What the loop does with one record of the image. */
  lemma WalkOneRecord(image: seq<Byte>, off: nat)
    requires off + HEADER_SIZE <= |image| && off + HEADER_SIZE + image[off + 2] <= |image|
    requires Complete(RecordAt(image, off))
    ensures var r := RecordAt(image, off);
            Walk(image, off) == if IsOutputZero(r) then LimitsOf(Some(r))
                                else if r.last then Limits(0, 0)
                                else Walk(image, off + HEADER_SIZE + image[off + 2])
  {
    var r := RecordAt(image, off);
    if r.kind == DC_LOAD {
      assert r.body[0] == image[off + 5] && r.body[3] == image[off + 8] && r.body[4] == image[off + 9];
      assert r.body[5] == image[off + 10] && r.body[6] == image[off + 11];
    }
  }

  lemma {:induction false} WalkIsParse(image: seq<Byte>, off: nat)
    requires Parse(image, off).Some? && forall r <- Parse(image, off).value :: Complete(r)
    ensures Walk(image, off) == LimitsOf(Pick(Parse(image, off).value))
    decreases |image| - off
  {
    var rs, r := Parse(image, off).value, RecordAt(image, off);
    assert rs[0] == r && r in rs;
    WalkOneRecord(image, off);
    if !IsOutputZero(r) {
      if r.last {
        assert rs == [r] && rs[1..] == [];
      } else {
        var end := off + HEADER_SIZE + image[off + 2];
        assert rs[1..] == Parse(image, end).value;
        forall x <- rs[1..] ensures x in rs { }
        WalkIsParse(image, end);
      }
    }
  }

  /** On every well-formed chain the walk stays inside the image and yields the limits of the first
      DC-load record of output 0, or zeros if there is none, as parsing it into records would. */
  lemma WalkFindsTheRecord(image: seq<Byte>)
    requires |image| == MAX_SIZE && image[0] == 1 && image[5] != 0
    requires Parse(image, Area(image)).Some? && forall r <- Parse(image, Area(image)).value :: Complete(r)
    ensures ReadVadj(image) == LimitsOf(Pick(Parse(image, Area(image)).value))
    ensures ReadVadj(image).Limits?
  {
    WalkIsParse(image, Area(image));
  }

  /** The offsets the walk visits from `off`, as long as the records it reads are in the image. */
  function Visits(image: seq<Byte>, off: nat): seq<nat>
    decreases |image| - off
  {
    if !InImage(image, off) then [off]
    else if (image[off] == DC_LOAD && IsVadj(image, off)) || image[off + 1] >= 0x80 then [off]
    else [off] + Visits(image, off + image[off + 2] + HEADER_SIZE)
  }

  /** The walk leaves the image exactly when the last record it visits is not in it, or is the one looked
      for and its voltages are not. */
  lemma {:induction false} OverrunIff(image: seq<Byte>, off: nat)
    ensures Visits(image, off) != []
    ensures var last := Visits(image, off)[|Visits(image, off)| - 1];
            Walk(image, off) == Overrun
            <==> !InImage(image, last) || (image[last] == DC_LOAD && IsVadj(image, last) && last + 11 >= |image|)
    decreases |image| - off
  {
    if InImage(image, off) && !(image[off] == DC_LOAD && IsVadj(image, off)) && image[off + 1] < 0x80 {
      OverrunIff(image, off + image[off + 2] + HEADER_SIZE);
    }
  }

  /** The walk never stands still: each record visited lies at least a header further on. */
  lemma {:induction false} VisitsAdvance(image: seq<Byte>, off: nat)
    ensures Visits(image, off) != [] && Visits(image, off)[0] == off
    ensures forall i :: 0 < i < |Visits(image, off)| ==> Visits(image, off)[i] >= Visits(image, off)[i - 1] + HEADER_SIZE
    decreases |image| - off
  {
    if InImage(image, off) && !(image[off] == DC_LOAD && IsVadj(image, off)) && image[off + 1] < 0x80 {
      VisitsAdvance(image, off + image[off + 2] + HEADER_SIZE);
    }
  }

  // ---------------------------------------------------------------- the rail

  datatype Rail = V0 | V1200 | V1500 | V1800

  function Level(r: Rail): nat {
    match r case V0 => 0 case V1200 => 1200 case V1500 => 1500 case V1800 => 1800
  }

  /** XFsbl_CalVadj, whose arguments are 16 bits wide. */
  function CalVadj(min: nat, max: nat): Rail
    requires min < U16 && max < U16
  {
    if min <= 1800 && max >= 1800 then V1800
    else if min <= 1500 && max >= 1500 then V1500
    else if min <= 1200 && max >= 1200 then V1200
    else V0
  }

  /** What XFsbl_FMCEnable sets for limits of any size. */
  function Setting(min: nat, max: nat): Rail {
    CalVadj(min % U16, max % U16)
  }

  predicate Allows(min: nat, max: nat, r: Rail) {
    r != V0 && min <= Level(r) <= max
  }

  /** The highest rail within the limits, or off if there is none. */
  predicate IsBest(min: nat, max: nat, r: Rail) {
    && (r == V0 || Allows(min, max, r))
    && forall q: Rail :: Allows(min, max, q) ==> Level(q) <= Level(r)
  }

  /** The truncation to 16 bits does no harm: both limits fit; or the lower does, and what is left of the
      upper still admits the rail it should; or the lower does not, and what is left admits no rail either. */
  predicate Harmless(min: nat, max: nat) {
    || (min < U16 && max < U16)
    || (min < U16 && (min > 1800 || max % U16 >= 1800))
    || (min >= U16 && forall q: Rail :: !Allows(min % U16, max % U16, q))
  }

  /** The setting is the highest allowed rail exactly when the truncation did no harm. */
  lemma SettingIsBestIff(min: nat, max: nat)
    ensures IsBest(min, max, Setting(min, max)) <==> Harmless(min, max)
  {
    var r := Setting(min, max);
    assert Allows(min, max, V1800) <==> min <= 1800 <= max;
    assert Allows(min, max, V1500) <==> min <= 1500 <= max;
    assert Allows(min, max, V1200) <==> min <= 1200 <= max;
    assert r == V0 <==> forall q: Rail :: !Allows(min % U16, max % U16, q) by {
      assert Allows(min % U16, max % U16, V1800) <==> min % U16 <= 1800 <= max % U16;
      assert Allows(min % U16, max % U16, V1500) <==> min % U16 <= 1500 <= max % U16;
      assert Allows(min % U16, max % U16, V1200) <==> min % U16 <= 1200 <= max % U16;
    }
  }

  /** For limits in order that fit, by voltage: the 1.8 V rail wherever it is allowed, the 1.5 V rail where the upper
      limit is below that, the 1.2 V rail where it is below 1.5 V, and otherwise none. */
  lemma RailByVoltage(min: nat, max: nat)
    requires min <= max < 65536
    ensures Setting(min, max) == V1800 <==> min <= 1800 <= max
    ensures Setting(min, max) == V1500 <==> min <= 1500 <= max < 1800
    ensures Setting(min, max) == V1200 <==> min <= 1200 <= max < 1500
  {
  }

  /** A chain of records, each complete. */
  predicate WellFormed(image: seq<Byte>) {
    && |image| == MAX_SIZE && image[0] == 1 && image[5] != 0
    && Parse(image, Area(image)).Some? && forall r <- Parse(image, Area(image)).value :: Complete(r)
  }

  /** End to end: on a well-formed image the rail is the highest of 1.8, 1.5 and 1.2 V within the limits of
      its record exactly when the truncation did no harm. */
  lemma RailIsHighestIff(image: seq<Byte>)
    requires WellFormed(image)
    ensures ReadVadj(image).Limits?
    ensures var found := LimitsOf(Pick(Parse(image, Area(image)).value));
            IsBest(found.min, found.max, Setting(ReadVadj(image).min, ReadVadj(image).max))
            <==> Harmless(found.min, found.max)
  {
    WalkFindsTheRecord(image);
    SettingIsBestIff(ReadVadj(image).min, ReadVadj(image).max);
  }

  /** An image whose one record allows 1.8 V up to a maximum of 6554 steps. */
  function HighLimit(): (image: seq<Byte>)
    ensures |image| == MAX_SIZE
  {
    seq(MAX_SIZE, i =>
      if i == 0 || i == 5 then 1
      else if i == 8 then 2 else if i == 9 then 0x80 else if i == 10 then 13
      else if i == 16 then 180 else if i == 18 then 0x9A else if i == 19 then 0x19 else 0)
  }

  /** Its upper limit, 65540 mV, is cut to 4 mV, and VADJ stays off. */
  lemma HighLimitTurnsVadjOff()
    ensures var image := HighLimit();
            && WellFormed(image) && ReadVadj(image) == Limits(1800, 65540)
            && Setting(1800, 65540) == V0 && IsBest(1800, 65540, V1800)
  {
    var image := HighLimit();
    var r := RecordAt(image, 8);
    assert Area(image) == 8 && Parse(image, 8) == Some([r]);
    assert Complete(r) && r.body[0] == image[13];
    WalkOneRecord(image, 8);
    assert forall q: Rail :: Level(q) <= 1800;
  }

  /** VADJ stays off where the common header is of another format or names no multirecord area. */
  lemma NoAreaTurnsVadjOff(image: seq<Byte>)
    requires |image| == MAX_SIZE && (image[0] != 1 || image[5] == 0)
    ensures ReadVadj(image) == Limits(0, 0) && Setting(0, 0) == V0
  {
  }

  // ---------------------------------------------------------------- by position in the image

  /** The records of a chain start at `at`: each ends within the image, only the last is marked last, and the next
      one follows it. */
  predicate Chained(image: seq<Byte>, at: seq<nat>) {
    && at != []
    && (forall k: nat :: k < |at| ==> at[k] + 5 <= |image| && at[k] + 5 + image[at[k] + 2] <= |image|)
    && (forall k: nat :: k < |at| ==> (image[at[k] + 1] >= 128 <==> k == |at| - 1))
    && (forall k: nat :: k < |at| - 1 ==> at[k + 1] == at[k] + 5 + image[at[k] + 2])
  }

  lemma ChainedRest(image: seq<Byte>, at: seq<nat>)
    requires Chained(image, at) && |at| > 1
    ensures Chained(image, at[1..])
  {
  }

  lemma ParseHead(image: seq<Byte>, at: seq<nat>)
    requires Chained(image, at)
    ensures |at| == 1 ==> Parse(image, at[0]) == Some([RecordAt(image, at[0])])
    ensures |at| > 1 && Parse(image, at[1]).Some? ==>
              Parse(image, at[0]) == Some([RecordAt(image, at[0])] + Parse(image, at[1]).value)
  {
  }

  lemma {:induction false} ParseAll(image: seq<Byte>, at: seq<nat>)
    requires Chained(image, at)
    ensures Parse(image, at[0]) == Some(seq(|at|, k requires 0 <= k < |at| => RecordAt(image, at[k])))
    decreases |at|
  {
    var rs := seq(|at|, k requires 0 <= k < |at| => RecordAt(image, at[k]));
    ParseHead(image, at);
    if |at| == 1 {
      assert rs == [RecordAt(image, at[0])];
    } else {
      ChainedRest(image, at);
      ParseAll(image, at[1..]);
      assert rs == [RecordAt(image, at[0])] + Parse(image, at[1]).value;
    }
  }

  /** A chain is parsed into just its records. */
  lemma ChainIsParsed(image: seq<Byte>, at: seq<nat>)
    requires Chained(image, at)
    ensures Parse(image, at[0]).Some? && |Parse(image, at[0]).value| == |at|
    ensures forall k: nat :: k < |at| ==>
              Parse(image, at[0]).value[k]
              == Record(image[at[k]], k == |at| - 1, image[at[k] + 5..at[k] + 5 + image[at[k] + 2]])
  {
    ParseAll(image, at);
  }

  lemma ChainedMore(image: seq<Byte>, off: nat, more: seq<nat>)
    requires off + 5 <= |image| && off + 5 + image[off + 2] <= |image| && image[off + 1] < 128
    requires Chained(image, more) && more[0] == off + 5 + image[off + 2]
    ensures Chained(image, [off] + more)
  {
    var at := [off] + more;
    forall k: nat | k < |at| - 1 ensures at[k + 1] == at[k] + 5 + image[at[k] + 2] {
      assert k > 0 ==> at[k] == more[k - 1];
    }
  }

  /** And what is parsed is a chain. */
  lemma {:induction false} ParsedIsChained(image: seq<Byte>, off: nat)
    requires Parse(image, off).Some?
    ensures exists at :: Chained(image, at) && at[0] == off
    decreases |image| - off
  {
    if image[off + 1] < 0x80 {
      var next := off + HEADER_SIZE + image[off + 2];
      ParsedIsChained(image, next);
      var more :| Chained(image, more) && more[0] == next;
      ChainedMore(image, off, more);
      assert ([off] + more)[0] == off;
    } else {
      assert Chained(image, [off]);
    }
  }

  /** A DC-load record with room for its voltages, of output 0 or of another. */
  predicate Load(image: seq<Byte>, off: nat, zero: bool)
    requires off + 5 <= |image| && off + 5 + image[off + 2] <= |image|
  {
    image[off] == 2 && image[off + 2] >= 7 && (image[off + 5] % 16 == 0 <==> zero)
  }

  /** A record the walk passes over. */
  predicate Passed(image: seq<Byte>, off: nat)
    requires off + 5 <= |image| && off + 5 + image[off + 2] <= |image|
  {
    image[off] != 2 || Load(image, off, false)
  }

  lemma {:induction false} WalkSkips(image: seq<Byte>, at: seq<nat>, k: nat)
    requires Chained(image, at) && k < |at| && forall j: nat :: j < k ==> Passed(image, at[j])
    ensures Walk(image, at[0]) == Walk(image, at[k])
    decreases k
  {
    if k > 0 {
      ChainedRest(image, at);
      assert Passed(image, at[0]);
      forall j: nat | j < k - 1 ensures Passed(image, at[1..][j]) { assert Passed(image, at[j + 1]); }
      WalkSkips(image, at[1..], k - 1);
    }
  }

  /** A chain that starts where byte 5 of the image says, in units of 8 bytes. */
  predicate FromHeader(image: seq<Byte>, at: seq<nat>, units: nat) {
    |image| == 256 && image[0] == 1 && units > 0 && image[5] == units && Chained(image, at) && at[0] == 8 * units
  }

  /** The limits are those of the first DC-load record of output 0: 16-bit numbers in steps of 10 mV, low byte first,
      the lower at its bytes 8 and 9 and the upper at 10 and 11. */
  lemma RecordSetsLimits(image: seq<Byte>, at: seq<nat>, units: nat, k: nat, a: nat, b: nat, c: nat, d: nat)
    requires FromHeader(image, at, units) && k < |at|
    requires Load(image, at[k], true) && forall j: nat :: j < k ==> Passed(image, at[j])
    requires image[at[k] + 8..at[k] + 12] == [a, b, c, d]
    ensures ReadVadj(image) == Limits((a + 256 * b) * 10, (c + 256 * d) * 10)
  {
    WalkSkips(image, at, k);
    var bytes := image[at[k] + 8..at[k] + 12];
    assert bytes[0] == a && bytes[1] == b && bytes[2] == c && bytes[3] == d;
  }

  /** And zero, with VADJ off, if there is none. */
  lemma NoRecordSetsNone(image: seq<Byte>, at: seq<nat>, units: nat)
    requires FromHeader(image, at, units) && forall j: nat :: j < |at| ==> Passed(image, at[j])
    ensures ReadVadj(image) == Limits(0, 0) && Setting(0, 0) == V0
  {
    WalkSkips(image, at, |at| - 1);
    assert Passed(image, at[|at| - 1]);
  }
}
