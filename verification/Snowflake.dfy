/** Packed, time-ordered identifiers: every legal bit layout, any clock, whole runs of singles, batches and failures. */
module Snowflake {
  import opened Wrappers
  import opened Bits

  // ---------------------------------------------------------------- configuration

  datatype Config = Config(timestampBits: int, datacenterBits: int, machineBits: int, sequenceBits: int,
                           datacenterId: int, machineId: int, epoch: int)

  datatype ConfigError = BitsNotPositive | BitsNotSixtyThree | EpochNotPositive | DatacenterOutOfRange
      | MachineOutOfRange

  predicate Fits(id: int, bits: int) { bits >= 0 && 0 <= id < Pow2(bits) }

  /** A legal layout and identity. */
  predicate Legal(c: Config) {
    && c.timestampBits > 0 && c.datacenterBits > 0 && c.machineBits > 0 && c.sequenceBits > 0
    && c.timestampBits + c.datacenterBits + c.machineBits + c.sequenceBits == 63
    && c.epoch > 0 && Fits(c.datacenterId, c.datacenterBits) && Fits(c.machineId, c.machineBits)
  }

  /** The checks of `__post_init__`, in order. */
  function Fault(c: Config): (r: Option<ConfigError>)
    ensures r.None? <==> Legal(c)
  {
    if c.timestampBits <= 0 || c.datacenterBits <= 0 || c.machineBits <= 0 || c.sequenceBits <= 0
      then Some(BitsNotPositive)
    else if c.timestampBits + c.datacenterBits + c.machineBits + c.sequenceBits != 63 then Some(BitsNotSixtyThree)
    else if c.epoch <= 0 then Some(EpochNotPositive)
    else if c.datacenterId < 0 || c.datacenterId > Pow2(c.datacenterBits) - 1 then Some(DatacenterOutOfRange)
    else if c.machineId < 0 || c.machineId > Pow2(c.machineBits) - 1 then Some(MachineOutOfRange)
    else None
  }

  // ---------------------------------------------------------------- packing and parsing

  /** The fields packed above the sequence. */
  function Prefix(c: Config): nat
    requires Legal(c)
  {
    Or(Shl(c.datacenterId, c.machineBits + c.sequenceBits), Shl(c.machineId, c.sequenceBits))
  }

  /** `(offset << shift) | node_prefix | sequence`. */
  function Compose(c: Config, offset: nat, sequence: nat): nat
    requires Legal(c)
  {
    Or(Or(Shl(offset, c.datacenterBits + c.machineBits + c.sequenceBits), Prefix(c)), sequence)
  }

  datatype Parsed = Parsed(id: nat, timestamp: int, datacenter: nat, machine: nat, sequence: nat)

  datatype ParseError = NegativeId | TooManyBits | OutsideCalendar

  /** The last millisecond of the year 9999, after which Python has no date. */
  const LAST_MILLISECOND := 253402300799999

  /** `IDParser.parse`: masks and shifts. */
  function Parse(c: Config, id: int): Result<Parsed, ParseError>
    requires Legal(c)
  {
    if id < 0 then Err(NegativeId)
    else if id >= Pow2(63) then Err(TooManyBits)
    else
      var sequence := And(id, Pow2(c.sequenceBits) - 1);
      var machine := And(Shr(id, c.sequenceBits), Pow2(c.machineBits) - 1);
      var datacenter := And(Shr(id, c.machineBits + c.sequenceBits), Pow2(c.datacenterBits) - 1);
      var offset := And(Shr(id, c.datacenterBits + c.machineBits + c.sequenceBits), Pow2(c.timestampBits) - 1);
      var timestamp := offset + c.epoch;
      if timestamp > LAST_MILLISECOND then Err(OutsideCalendar)
        else Ok(Parsed(id, timestamp, datacenter, machine, sequence))
  }

  /** The four fields as digits of one number: offset, datacenter, machine, sequence. */
  function Packed(c: Config, offset: nat, datacenter: nat, machine: nat, sequence: nat): int
    requires Legal(c)
  {
    ((offset * Pow2(c.datacenterBits) + datacenter) * Pow2(c.machineBits) + machine) * Pow2(c.sequenceBits) + sequence
  }

  /** Regrouping two low digits into one. */
  lemma Regroup(q: int, a: nat, r: nat, b: nat, t: nat)
    requires r < a && t < b
    ensures (q * a + r) * b + t == q * (a * b) + (r * b + t) && 0 <= r * b + t < a * b
  {
    assert (q * a + r) * b == q * a * b + r * b;
    assert q * a * b == q * (a * b);
    ProductGrows(r + 1, a, b);
    ProductGrows(0, r, b);
  }

  lemma Below(x: nat, a: nat, b: nat)
    requires x < a
    ensures 0 <= x * b && x * b + b <= a * b
  {
    ProductGrows(x + 1, a, b);
    ProductGrows(0, x, b);
  }

  lemma PrefixIsPacked(c: Config)
    requires Legal(c)
    ensures Prefix(c) == (c.datacenterId * Pow2(c.machineBits) + c.machineId) * Pow2(c.sequenceBits)
    ensures 0 <= c.datacenterId * Pow2(c.machineBits) + c.machineId < Pow2(c.datacenterBits) * Pow2(c.machineBits)
  {
    var d, m, b := c.datacenterId, Pow2(c.machineBits), Pow2(c.sequenceBits);
    Pow2Adds(c.machineBits, c.sequenceBits);
    Below(c.machineId, m, b);
    OrDisjoint(d, c.machineBits + c.sequenceBits, c.machineId * b);
    Regroup(d, m, c.machineId, b, 0);
    Below(d, Pow2(c.datacenterBits), m);
  }

  /** Shifting and or-ing the fields together is writing them as digits: no field spills into another. */
  lemma ComposeIsPacked(c: Config, offset: nat, sequence: nat)
    requires Legal(c) && sequence < Pow2(c.sequenceBits)
    ensures Compose(c, offset, sequence) == Packed(c, offset, c.datacenterId, c.machineId, sequence)
  {
    hide Or, Pow2, Prefix;
    var above := HighPart(c, offset);
    OrDisjoint(above, c.sequenceBits, sequence);
  }

  /** Everything above the sequence is a multiple of its width. */
  lemma HighPart(c: Config, offset: nat) returns (above: nat)
    requires Legal(c)
    ensures above == (offset * Pow2(c.datacenterBits) + c.datacenterId) * Pow2(c.machineBits) + c.machineId
    ensures Or(Shl(offset, c.datacenterBits + c.machineBits + c.sequenceBits), Prefix(c))
      == above * Pow2(c.sequenceBits)
  {
    hide Or, Pow2, Prefix;
    var d, m, b := Pow2(c.datacenterBits), Pow2(c.machineBits), Pow2(c.sequenceBits);
    var low := c.datacenterId * m + c.machineId;
    PrefixIsPacked(c);
    Pow2Adds(c.datacenterBits, c.machineBits);
    Pow2Adds(c.datacenterBits + c.machineBits, c.sequenceBits);
    Below(low, d * m, b);
    OrDisjoint(offset, c.datacenterBits + c.machineBits + c.sequenceBits, low * b);
    Regroup(offset, d * m, low, b, 0);
    Expand(offset, d, c.datacenterId, m, c.machineId);
    ProductGrows(0, offset, d * m);
    above := offset * (d * m) + low;
  }

  lemma Expand(o: int, d: nat, x: int, m: nat, y: int)
    ensures (o * d + x) * m + y == o * (d * m) + (x * m + y)
  {
    assert (o * d + x) * m == o * d * m + x * m;
    assert o * d * m == o * (d * m);
  }

  /** The number the digits make is in range. */
  lemma DigitsFit(t: nat, d: nat, m: nat, b: nat, o: nat, x: nat, y: nat, z: nat)
    requires o < t && x < d && y < m && z < b
    ensures 0 <= o * d + x < t * d && 0 <= (o * d + x) * m + y < t * d * m
      && 0 <= ((o * d + x) * m + y) * b + z < t * d * m * b
  {
    Below(o, t, d);
    Below(o * d + x, t * d, m);
    Below((o * d + x) * m + y, t * d * m, b);
  }

  /** Dividing away the two lowest digits. */
  lemma DropTwo(q: nat, m: nat, y: nat, b: nat, z: nat)
    requires y < m && z < b
    ensures ((q * m + y) * b + z) / (m * b) == q && m * b > 0
  {
    Regroup(q, m, y, b, z);
    DivMod(q, m * b, y * b + z);
  }

  /** Dividing away the three lowest digits. */
  lemma DropThree(q: nat, d: nat, x: nat, m: nat, y: nat, b: nat, z: nat)
    requires x < d && y < m && z < b
    ensures (((q * d + x) * m + y) * b + z) / (d * (m * b)) == q && d * (m * b) > 0
  {
    Regroup(q * d + x, m, y, b, z);
    Regroup(q, d, x, m * b, y * b + z);
    DivMod(q, d * (m * b), x * (m * b) + (y * b + z));
  }

  /** Masks and shifts read the digits back. */
  lemma ParseReadsDigits(c: Config, offset: nat, datacenter: nat, machine: nat, sequence: nat)
    requires Legal(c) && offset < Pow2(c.timestampBits) && datacenter < Pow2(c.datacenterBits)
    requires machine < Pow2(c.machineBits) && sequence < Pow2(c.sequenceBits)
    ensures var id := Packed(c, offset, datacenter, machine, sequence);
      && 0 <= id < Pow2(63)
      && Parse(c, id) == if offset + c.epoch > LAST_MILLISECOND then Err(OutsideCalendar)
                         else Ok(Parsed(id, offset + c.epoch, datacenter, machine, sequence))
  {
    hide Pow2, And;
    var t, d, m, b := Pow2(c.timestampBits), Pow2(c.datacenterBits), Pow2(c.machineBits), Pow2(c.sequenceBits);
    DigitsFit(t, d, m, b, offset, datacenter, machine, sequence);
    WholeWidth(c);
    var q1: nat := offset * d + datacenter;
    var q2: nat := q1 * m + machine;
    var id: nat := q2 * b + sequence;
    ShiftsDrop(c, offset, datacenter, machine, sequence);
    MaskReads(id, q2, c.sequenceBits, sequence);
    MaskReads(q2, q1, c.machineBits, machine);
    MaskReads(q1, offset, c.datacenterBits, datacenter);
    MaskReads(offset, 0, c.timestampBits, offset);
  }

  lemma MaskReads(n: nat, q: nat, k: nat, digit: nat)
    requires digit < Pow2(k) && n == q * Pow2(k) + digit
    ensures And(n, Pow2(k) - 1) == digit
  {
    hide Pow2, And;
    AndMask(n, k);
    DivMod(q, Pow2(k), digit);
  }

  lemma ShiftsDrop(c: Config, offset: nat, datacenter: nat, machine: nat, sequence: nat)
    requires Legal(c) && datacenter < Pow2(c.datacenterBits) && machine < Pow2(c.machineBits)
      && sequence < Pow2(c.sequenceBits)
    requires Packed(c, offset, datacenter, machine, sequence) >= 0
    ensures var id := Packed(c, offset, datacenter, machine, sequence);
      && Shr(id, c.sequenceBits) == (offset * Pow2(c.datacenterBits) + datacenter) * Pow2(c.machineBits) + machine
      && Shr(id, c.machineBits + c.sequenceBits) == offset * Pow2(c.datacenterBits) + datacenter
      && Shr(id, c.datacenterBits + c.machineBits + c.sequenceBits) == offset
  {
    hide Pow2;
    ProductGrows(0, offset, Pow2(c.datacenterBits));
    ShiftOne((offset * Pow2(c.datacenterBits) + datacenter) * Pow2(c.machineBits) + machine, c.sequenceBits, sequence);
    ShiftTwo(offset * Pow2(c.datacenterBits) + datacenter, c.machineBits, machine, c.sequenceBits, sequence);
    ShiftThree(offset, c.datacenterBits, datacenter, c.machineBits, machine, c.sequenceBits, sequence);
  }

  lemma ShiftOne(q: int, k: nat, r: nat)
    requires r < Pow2(k) && q * Pow2(k) + r >= 0
    ensures Shr(q * Pow2(k) + r, k) == q
  {
    hide Pow2;
    DivMod(q, Pow2(k), r);
  }

  lemma ShiftTwo(q: nat, j: nat, y: nat, k: nat, z: nat)
    requires y < Pow2(j) && z < Pow2(k) && (q * Pow2(j) + y) * Pow2(k) + z >= 0
    ensures Shr((q * Pow2(j) + y) * Pow2(k) + z, j + k) == q
  {
    hide Pow2;
    DropTwo(q, Pow2(j), y, Pow2(k), z);
    Pow2Adds(j, k);
  }

  lemma ShiftThree(q: nat, i: nat, x: nat, j: nat, y: nat, k: nat, z: nat)
    requires x < Pow2(i) && y < Pow2(j) && z < Pow2(k) && ((q * Pow2(i) + x) * Pow2(j) + y) * Pow2(k) + z >= 0
    ensures Shr(((q * Pow2(i) + x) * Pow2(j) + y) * Pow2(k) + z, i + j + k) == q
  {
    hide Pow2;
    DropThree(q, Pow2(i), x, Pow2(j), y, Pow2(k), z);
    Pow2Adds(j, k);
    Pow2Adds(i, j + k);
  }

  lemma WholeWidth(c: Config)
    requires Legal(c)
    ensures Pow2(c.timestampBits) * Pow2(c.datacenterBits) * Pow2(c.machineBits) * Pow2(c.sequenceBits) == Pow2(63)
  {
    Pow2Adds(c.timestampBits, c.datacenterBits);
    Pow2Adds(c.timestampBits + c.datacenterBits, c.machineBits);
    Pow2Adds(c.timestampBits + c.datacenterBits + c.machineBits, c.sequenceBits);
  }

  /** Parsing a composed identifier gives back exactly its fields; it fails exactly when its moment lies past the last
      date Python can express, which some legal layouts can reach. */
  lemma ParseInvertsCompose(c: Config, offset: nat, sequence: nat)
    requires Legal(c) && offset < Pow2(c.timestampBits) && sequence < Pow2(c.sequenceBits)
    ensures var id := Compose(c, offset, sequence);
      && id < Pow2(63) && (Parse(c, id).Ok? <==> offset + c.epoch <= LAST_MILLISECOND)
      && (Parse(c, id).Ok? ==>
            Parse(c, id).value == Parsed(id, offset + c.epoch, c.datacenterId, c.machineId, sequence))
      && (Parse(c, id).Err? ==> Parse(c, id).error == OutsideCalendar)
  {
    hide Pow2, Or, And;
    ComposeIsPacked(c, offset, sequence);
    ParseReadsDigits(c, offset, c.datacenterId, c.machineId, sequence);
  }

  /** A legal layout whose epoch already lies past the calendar. */
  const FAR := Config(41, 5, 5, 12, 0, 0, LAST_MILLISECOND + 1)

  /** Every identifier that parses is the composition of the fields it parses to, under the identity it names. */
  lemma ComposeInvertsParse(c: Config, id: int)
    requires Legal(c) && Parse(c, id).Ok?
    ensures var p := Parse(c, id).value; var named := c.(datacenterId := p.datacenter, machineId := p.machine);
      Legal(named) && p.timestamp >= c.epoch && p.sequence < Pow2(c.sequenceBits)
        && Compose(named, p.timestamp - c.epoch, p.sequence) == id
  {
    hide Pow2, Or, And;
    var o, d, m, q := Digits(c, id);
    ParseReadsDigits(c, o, d, m, q);
    var named := c.(datacenterId := d, machineId := m);
    ComposeIsPacked(named, o, q);
  }

  /** Every 63-bit number has digits in range. */
  lemma Digits(c: Config, id: int) returns (offset: nat, datacenter: nat, machine: nat, sequence: nat)
    requires Legal(c) && 0 <= id < Pow2(63)
    ensures offset < Pow2(c.timestampBits) && datacenter < Pow2(c.datacenterBits) && machine < Pow2(c.machineBits)
    ensures sequence < Pow2(c.sequenceBits) && id == Packed(c, offset, datacenter, machine, sequence)
  {
    hide Pow2;
    var d, m, b := Pow2(c.datacenterBits), Pow2(c.machineBits), Pow2(c.sequenceBits);
    var q2: nat, q1: nat;
    q2, sequence := Divided(id, b);
    q1, machine := Divided(q2, m);
    offset, datacenter := Divided(q1, d);
    WholeWidth(c);
    LeadingIsBounded(offset, Pow2(c.timestampBits), d, datacenter, m, machine, b, sequence);
  }

  lemma Divided(n: nat, p: nat) returns (q: nat, r: nat)
    requires p > 0
    ensures n == q * p + r && r < p
  {
    QuotientIsNatural(n, p);
    q, r := n / p, n % p;
  }

  lemma LeadingIsBounded(offset: nat, t: nat, d: nat, x: nat, m: nat, y: nat, b: nat, z: nat)
    requires ((offset * d + x) * m + y) * b + z < t * d * m * b
    ensures offset < t
  {
    if offset >= t {
      ProductGrows(t, offset, d);
      ProductGrows(t * d, offset * d + x, m);
      ProductGrows(t * d * m, (offset * d + x) * m + y, b);
    }
  }

  /** Identifiers of one generator are ordered as their moments and sequence numbers are. */
  lemma ComposeIsOrdered(c: Config, o1: nat, s1: nat, o2: nat, s2: nat)
    requires Legal(c) && s1 < Pow2(c.sequenceBits) && s2 < Pow2(c.sequenceBits)
    requires o1 < o2 || (o1 == o2 && s1 < s2)
    ensures Compose(c, o1, s1) < Compose(c, o2, s2)
  {
    hide Pow2, Or;
    ComposeIsPacked(c, o1, s1);
    ComposeIsPacked(c, o2, s2);
    if o1 < o2 {
      Leading(o1, o2, Pow2(c.datacenterBits), c.datacenterId, c.datacenterId);
      Leading(o1 * Pow2(c.datacenterBits) + c.datacenterId, o2 * Pow2(c.datacenterBits) + c.datacenterId,
              Pow2(c.machineBits), c.machineId, c.machineId);
      Leading((o1 * Pow2(c.datacenterBits) + c.datacenterId) * Pow2(c.machineBits) + c.machineId,
              (o2 * Pow2(c.datacenterBits) + c.datacenterId) * Pow2(c.machineBits) + c.machineId,
              Pow2(c.sequenceBits), s1, s2);
    }
  }

  /** A smaller leading digit outweighs whatever follows. */
  lemma Leading(x: int, y: int, p: nat, r: nat, t: nat)
    requires x < y && r < p && t < p
    ensures x * p + r < y * p + t
  {
    ProductGrows(x + 1, y, p);
  }

  /** Generators of one layout with different identities never compose the same identifier. */
  lemma IdentitiesNeverCollide(a: Config, b: Config, o1: nat, s1: nat, o2: nat, s2: nat)
    requires Legal(a) && Legal(b) && b == a.(datacenterId := b.datacenterId, machineId := b.machineId)
    requires o1 < Pow2(a.timestampBits) && o2 < Pow2(a.timestampBits) && s1 < Pow2(a.sequenceBits)
      && s2 < Pow2(a.sequenceBits)
    ensures Compose(a, o1, s1) == Compose(b, o2, s2) ==> a == b && o1 == o2 && s1 == s2
  {
    hide Pow2, Or;
    ComposeIsPacked(a, o1, s1);
    ComposeIsPacked(b, o2, s2);
    if Compose(a, o1, s1) == Compose(b, o2, s2) {
      var d, m, w := Pow2(a.datacenterBits), Pow2(a.machineBits), Pow2(a.sequenceBits);
      Unique((o1 * d + a.datacenterId) * m + a.machineId, s1, (o2 * d + b.datacenterId) * m + b.machineId, s2, w);
      Unique(o1 * d + a.datacenterId, a.machineId, o2 * d + b.datacenterId, b.machineId, m);
      Unique(o1, a.datacenterId, o2, b.datacenterId, d);
    }
  }
}
