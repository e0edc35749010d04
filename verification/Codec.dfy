/** The D-Bus codecs: values to typed token streams and back, and the engine's satellite map. */
module Codec {
  import opened Prelude
  import opened Types

  type uint32 = x: int | 0 <= x < 0x1_0000_0000

  datatype Token =
    | TBool(b: bool) | TDouble(d: real) | TUint32(u: uint32) | TInt64(i: int)
    | TStruct(fields: seq<Token>) | TArray(elements: seq<Token>)

  type Tokens = seq<Token>

  /** What a decoder yields: a value and the tokens after it; a token of another type is an error. */
  type Parse<+T> = Result<(T, Tokens)>

  /** The `requires` and `accuracy` members of Criteria. */
  datatype Needs = Needs(position: bool, altitude: bool, heading: bool, velocity: bool)
  datatype Accuracy = Accuracy(
    horizontal: real, vertical: Option<real>, velocity: Option<real>, heading: Option<real>)
  datatype Criteria = Criteria(needs: Needs, accuracy: Accuracy)

  datatype Key = Key(kind: uint32, id: uint32)

  datatype SpaceVehicle = SpaceVehicle(
    key: Key, snr: real, hasAlmanacData: bool, hasEphimerisData: bool, usedInFix: bool,
    azimuth: real, elevation: real)

  // --- What the codecs compute -------------------------------------------------------------

  function EncodeBool(b: bool): Tokens { [TBool(b)] }

  function DecodeBool(ts: Tokens): Parse<bool> {
    if ts != [] && ts[0].TBool? then Ok((ts[0].b, ts[1..])) else Err
  }

  function EncodeQuantity(d: real): Tokens { [TDouble(d)] }

  function DecodeQuantity(ts: Tokens): Parse<real> {
    if ts != [] && ts[0].TDouble? then Ok((ts[0].d, ts[1..])) else Err
  }

  function DecodeInt64(ts: Tokens): Parse<int> {
    if ts != [] && ts[0].TInt64? then Ok((ts[0].i, ts[1..])) else Err
  }

  function DecodeUint32(ts: Tokens): Parse<uint32> {
    if ts != [] && ts[0].TUint32? then Ok((ts[0].u, ts[1..])) else Err
  }

  function EncodeOptional<T>(encode: T -> Tokens, v: Option<T>): Tokens {
    EncodeBool(v.Some?) + if v.Some? then encode(v.value) else []
  }

  function DecodeOptional<T>(decode: Tokens -> Parse<T>, ts: Tokens): Parse<Option<T>> {
    var (hasValue, ts) :- DecodeBool(ts);
    if hasValue then
      var (value, ts) :- decode(ts);
      Ok((Some(value), ts))
    else Ok((None, ts))
  }

  function EncodeUpdate<T>(encode: T -> Tokens, u: Update<T>): Tokens {
    encode(u.value) + [TInt64(u.when)]
  }

  function DecodeUpdate<T>(decode: Tokens -> Parse<T>, ts: Tokens): Parse<Update<T>> {
    var (value, ts) :- decode(ts);
    var (when, ts) :- DecodeInt64(ts);
    Ok((Update(value, when), ts))
  }

  function EncodePosition(p: Position): Tokens {
    EncodeQuantity(p.latitude) + EncodeQuantity(p.longitude) + EncodeOptional(EncodeQuantity, p.altitude)
    + EncodeOptional(EncodeQuantity, p.horizontal) + EncodeOptional(EncodeQuantity, p.vertical)
  }

  function DecodePosition(ts: Tokens): Parse<Position> {
    var (latitude, ts) :- DecodeQuantity(ts);
    var (longitude, ts) :- DecodeQuantity(ts);
    var (altitude, ts) :- DecodeOptional(DecodeQuantity, ts);
    var (horizontal, ts) :- DecodeOptional(DecodeQuantity, ts);
    var (vertical, ts) :- DecodeOptional(DecodeQuantity, ts);
    Ok((Position(latitude, longitude, altitude, horizontal, vertical), ts))
  }

  function EncodeNeeds(n: Needs): Tokens {
    EncodeBool(n.position) + EncodeBool(n.altitude) + EncodeBool(n.heading) + EncodeBool(n.velocity)
  }

  function EncodeAccuracy(a: Accuracy): Tokens {
    EncodeQuantity(a.horizontal) + EncodeOptional(EncodeQuantity, a.vertical)
    + EncodeOptional(EncodeQuantity, a.velocity) + EncodeOptional(EncodeQuantity, a.heading)
  }

  function EncodeCriteria(c: Criteria): Tokens { EncodeNeeds(c.needs) + EncodeAccuracy(c.accuracy) }

  function DecodeNeeds(ts: Tokens): Parse<Needs> {
    var (position, ts) :- DecodeBool(ts);
    var (altitude, ts) :- DecodeBool(ts);
    var (heading, ts) :- DecodeBool(ts);
    var (velocity, ts) :- DecodeBool(ts);
    Ok((Needs(position, altitude, heading, velocity), ts))
  }

  function DecodeAccuracy(ts: Tokens): Parse<Accuracy> {
    var (horizontal, ts) :- DecodeQuantity(ts);
    var (vertical, ts) :- DecodeOptional(DecodeQuantity, ts);
    var (velocity, ts) :- DecodeOptional(DecodeQuantity, ts);
    var (heading, ts) :- DecodeOptional(DecodeQuantity, ts);
    Ok((Accuracy(horizontal, vertical, velocity, heading), ts))
  }

  function DecodeCriteria(ts: Tokens): Parse<Criteria> {
    var (needs, ts) :- DecodeNeeds(ts);
    var (accuracy, ts) :- DecodeAccuracy(ts);
    Ok((Criteria(needs, accuracy), ts))
  }

  function EncodeSpaceVehicle(sv: SpaceVehicle): Tokens {
    [TStruct([TUint32(sv.key.kind), TUint32(sv.key.id), TDouble(sv.snr),
              TBool(sv.hasAlmanacData), TBool(sv.hasEphimerisData), TBool(sv.usedInFix),
              TDouble(sv.azimuth), TDouble(sv.elevation)])]
  }

  function DecodeSpaceVehicle(ts: Tokens): Parse<SpaceVehicle> {
    if ts == [] || !ts[0].TStruct? then Err
    else
      var (kind, sub) :- DecodeUint32(ts[0].fields);
      var (id, sub) :- DecodeUint32(sub);
      var (snr, sub) :- DecodeQuantity(sub);
      var (almanac, sub) :- DecodeBool(sub);
      var (ephimeris, sub) :- DecodeBool(sub);
      var (used, sub) :- DecodeBool(sub);
      var (azimuth, sub) :- DecodeQuantity(sub);
      var (elevation, sub) :- DecodeQuantity(sub);
      Ok((SpaceVehicle(Key(kind, id), snr, almanac, ephimeris, used, azimuth, elevation), ts[1..]))
  }

  // --- std::map with SpaceVehicle::Key -----------------------------------------------------

  /** The entries in key order. */
  type SvMap = seq<(Key, SpaceVehicle)>

  predicate Less(a: Key, b: Key) { if a.kind != b.kind then a.kind < b.kind else a.id < b.id }

  predicate Sorted(m: SvMap) { forall i, j :: 0 <= i < j < |m| ==> Less(m[i].0, m[j].0) }

  /** map::insert(): an entry already there stays. */
  function Insert(m: SvMap, k: Key, v: SpaceVehicle): SvMap {
    if m == [] || Less(k, m[0].0) then [(k, v)] + m
    else if k == m[0].0 then m
    else [m[0]] + Insert(m[1..], k, v)
  }

  /** m[k] = v. */
  function Put(m: SvMap, k: Key, v: SpaceVehicle): SvMap {
    if m == [] || Less(k, m[0].0) then [(k, v)] + m
    else if k == m[0].0 then [(k, v)] + m[1..]
    else [m[0]] + Put(m[1..], k, v)
  }

  /** Every entry is stored under its own key. */
  predicate OwnKeys(m: SvMap) { forall i :: 0 <= i < |m| ==> m[i].0 == m[i].1.key }

  function ElementTokens(m: SvMap): Tokens {
    if m == [] then [] else EncodeSpaceVehicle(m[0].1) + ElementTokens(m[1..])
  }

  lemma {:induction false} ElementTokensNext(m: SvMap, i: nat)
    requires i < |m|
    ensures ElementTokens(m[..i + 1]) == ElementTokens(m[..i]) + EncodeSpaceVehicle(m[i].1)
    decreases i
  {
    if i == 0 {
      assert m[..1][1..] == [] && m[..0] == [];
    } else {
      ElementTokensNext(m[1..], i - 1);
      assert m[..i + 1][1..] == m[1..][..i] && m[..i][1..] == m[1..][..i - 1];
    }
  }

  function EncodeMap(m: SvMap): Tokens { [TArray(ElementTokens(m))] }

  /** Decoding array elements into a map until none is left. */
  function DecodeElements(ts: Tokens, out: SvMap): Result<SvMap>
    decreases |ts|
  {
    if ts == [] then Ok(out)
    else
      var (sv, rest) :- DecodeSpaceVehicle(ts);
      if |rest| < |ts| then DecodeElements(rest, Insert(out, sv.key, sv)) else Err
  }

  function DecodeMap(ts: Tokens, out: SvMap): Parse<SvMap> {
    if ts == [] || !ts[0].TArray? then Err
    else
      var m :- DecodeElements(ts[0].elements, out);
      Ok((m, ts[1..]))
  }

  /** The engine's slot for visible satellites: later reports overwrite earlier ones. */
  function Accumulate(dest: SvMap, svs: seq<SpaceVehicle>): SvMap
    decreases |svs|
  {
    if svs == [] then dest else Accumulate(Put(dest, svs[0].key, svs[0]), svs[1..])
  }

  // --- Writers and readers -----------------------------------------------------------------

  class Writer {
    var tokens: Tokens

    constructor ()
      ensures tokens == []
    {
      tokens := [];
    }

    method Push(t: Token)
      modifies this
      ensures tokens == old(tokens) + [t]
    {
      tokens := tokens + [t];
    }

    method PutOptionalQuantity(v: Option<real>)
      modifies this
      ensures tokens == old(tokens) + EncodeOptional(EncodeQuantity, v)
    {
      Push(TBool(v.Some?));
      if v.Some? {
        Push(TDouble(v.value));
      }
    }

    method PutPosition(p: Position)
      modifies this
      ensures tokens == old(tokens) + EncodePosition(p)
    {
      Push(TDouble(p.latitude));
      Push(TDouble(p.longitude));
      PutOptionalQuantity(p.altitude);
      PutOptionalQuantity(p.horizontal);
      PutOptionalQuantity(p.vertical);
    }

    method PutPositionUpdate(u: Update<Position>)
      modifies this
      ensures tokens == old(tokens) + EncodeUpdate(EncodePosition, u)
    {
      PutPosition(u.value);
      Push(TInt64(u.when));
    }

    method PutNeeds(n: Needs)
      modifies this
      ensures tokens == old(tokens) + EncodeNeeds(n)
    {
      Push(TBool(n.position));
      Push(TBool(n.altitude));
      Push(TBool(n.heading));
      Push(TBool(n.velocity));
    }

    method PutAccuracy(a: Accuracy)
      modifies this
      ensures tokens == old(tokens) + EncodeAccuracy(a)
    {
      Push(TDouble(a.horizontal));
      PutOptionalQuantity(a.vertical);
      PutOptionalQuantity(a.velocity);
      PutOptionalQuantity(a.heading);
    }

    method PutCriteria(c: Criteria)
      modifies this
      ensures tokens == old(tokens) + EncodeCriteria(c)
    {
      PutNeeds(c.needs);
      PutAccuracy(c.accuracy);
    }

    method PutSpaceVehicle(sv: SpaceVehicle)
      modifies this
      ensures tokens == old(tokens) + EncodeSpaceVehicle(sv)
    {
      var sub := new Writer();
      sub.Push(TUint32(sv.key.kind));
      sub.Push(TUint32(sv.key.id));
      sub.Push(TDouble(sv.snr));
      sub.Push(TBool(sv.hasAlmanacData));
      sub.Push(TBool(sv.hasEphimerisData));
      sub.Push(TBool(sv.usedInFix));
      sub.Push(TDouble(sv.azimuth));
      sub.Push(TDouble(sv.elevation));
      assert sub.tokens == EncodeSpaceVehicle(sv)[0].fields;
      Push(TStruct(sub.tokens));
    }

    method PutMap(m: SvMap)
      modifies this
      ensures tokens == old(tokens) + EncodeMap(m)
    {
      var sub := new Writer();
      var i := 0;
      while i < |m|
        invariant 0 <= i <= |m| && fresh(sub)
        invariant sub.tokens == ElementTokens(m[..i])
        invariant tokens == old(tokens)
      {
        ElementTokensNext(m, i);
        sub.PutSpaceVehicle(m[i].1);
        i := i + 1;
      }
      assert m[..|m|] == m;
      Push(TArray(sub.tokens));
    }
  }

  /** The decoder took what the specification takes, or both failed. */
  predicate Agrees<T(==)>(r: Result<T>, rest: Tokens, spec: Parse<T>) {
    match spec
    case Ok((v, ts)) => r == Ok(v) && rest == ts
    case Err => r.Err?
  }

  class Reader {
    var rest: Tokens

    constructor (ts: Tokens)
      ensures rest == ts
    {
      rest := ts;
    }

    method PopBool() returns (r: Result<bool>)
      modifies this
      ensures Agrees(r, rest, DecodeBool(old(rest)))
    {
      if rest == [] || !rest[0].TBool? { return Err; }
      r := Ok(rest[0].b);
      rest := rest[1..];
    }

    method PopDouble() returns (r: Result<real>)
      modifies this
      ensures Agrees(r, rest, DecodeQuantity(old(rest)))
    {
      if rest == [] || !rest[0].TDouble? { return Err; }
      r := Ok(rest[0].d);
      rest := rest[1..];
    }

    method PopInt64() returns (r: Result<int>)
      modifies this
      ensures Agrees(r, rest, DecodeInt64(old(rest)))
    {
      if rest == [] || !rest[0].TInt64? { return Err; }
      r := Ok(rest[0].i);
      rest := rest[1..];
    }

    method PopUint32() returns (r: Result<uint32>)
      modifies this
      ensures Agrees(r, rest, DecodeUint32(old(rest)))
    {
      if rest == [] || !rest[0].TUint32? { return Err; }
      r := Ok(rest[0].u);
      rest := rest[1..];
    }

    method TakeOptionalQuantity() returns (r: Result<Option<real>>)
      modifies this
      ensures Agrees(r, rest, DecodeOptional(DecodeQuantity, old(rest)))
    {
      var hasValue :- PopBool();
      if hasValue {
        var value :- PopDouble();
        r := Ok(Some(value));
      } else {
        r := Ok(None);
      }
    }

    method TakePosition() returns (r: Result<Position>)
      modifies this
      ensures Agrees(r, rest, DecodePosition(old(rest)))
    {
      var latitude :- PopDouble();
      var longitude :- PopDouble();
      var altitude :- TakeOptionalQuantity();
      var horizontal :- TakeOptionalQuantity();
      var vertical :- TakeOptionalQuantity();
      r := Ok(Position(latitude, longitude, altitude, horizontal, vertical));
    }

    method TakePositionUpdate() returns (r: Result<Update<Position>>)
      modifies this
      ensures Agrees(r, rest, DecodeUpdate(DecodePosition, old(rest)))
    {
      var value :- TakePosition();
      var when :- PopInt64();
      r := Ok(Update(value, when));
    }

    method TakeNeeds() returns (r: Result<Needs>)
      modifies this
      ensures Agrees(r, rest, DecodeNeeds(old(rest)))
    {
      var position :- PopBool();
      var altitude :- PopBool();
      var heading :- PopBool();
      var velocity :- PopBool();
      r := Ok(Needs(position, altitude, heading, velocity));
    }

    method TakeAccuracy() returns (r: Result<Accuracy>)
      modifies this
      ensures Agrees(r, rest, DecodeAccuracy(old(rest)))
    {
      var horizontal :- PopDouble();
      var vertical :- TakeOptionalQuantity();
      var velocity :- TakeOptionalQuantity();
      var heading :- TakeOptionalQuantity();
      r := Ok(Accuracy(horizontal, vertical, velocity, heading));
    }

    method TakeCriteria() returns (r: Result<Criteria>)
      modifies this
      ensures Agrees(r, rest, DecodeCriteria(old(rest)))
    {
      var needs :- TakeNeeds();
      var accuracy :- TakeAccuracy();
      r := Ok(Criteria(needs, accuracy));
    }

    method TakeSpaceVehicle() returns (r: Result<SpaceVehicle>)
      modifies this
      ensures Agrees(r, rest, DecodeSpaceVehicle(old(rest)))
    {
      if rest == [] || !rest[0].TStruct? { return Err; }
      var sub := new Reader(rest[0].fields);
      rest := rest[1..];
      var kind :- sub.PopUint32();
      var id :- sub.PopUint32();
      var snr :- sub.PopDouble();
      var almanac :- sub.PopBool();
      var ephimeris :- sub.PopBool();
      var used :- sub.PopBool();
      var azimuth :- sub.PopDouble();
      var elevation :- sub.PopDouble();
      r := Ok(SpaceVehicle(Key(kind, id), snr, almanac, ephimeris, used, azimuth, elevation));
    }

    /** Decoding into the map `into`, which may already hold entries. */
    method TakeMap(into: SvMap) returns (r: Result<SvMap>)
      modifies this
      ensures Agrees(r, rest, DecodeMap(old(rest), into))
    {
      if rest == [] || !rest[0].TArray? { return Err; }
      var sub := new Reader(rest[0].elements);
      rest := rest[1..];
      var out := into;
      while sub.rest != []
        invariant fresh(sub) && sub != this && rest == old(rest)[1..]
        invariant DecodeElements(sub.rest, out) == DecodeElements(old(rest)[0].elements, into)
        decreases |sub.rest|
      {
        ghost var before := sub.rest;
        var sv :- sub.TakeSpaceVehicle();
        assert |sub.rest| < |before|;
        out := Insert(out, sv.key, sv);
      }
      r := Ok(out);
    }
  }

  /** The engine's satellite property. */
  class VisibleSpaceVehicles {
    var dest: SvMap

    constructor ()
      ensures dest == []
    {
      dest := [];
    }

    method OnSpaceVehicles(src: seq<SpaceVehicle>)
      requires Sorted(dest) && OwnKeys(dest)
      modifies this
      ensures dest == Accumulate(old(dest), src)
      ensures Sorted(dest) && OwnKeys(dest)
    {
      var i := 0;
      while i < |src|
        invariant 0 <= i <= |src|
        invariant Accumulate(dest, src[i..]) == Accumulate(old(dest), src)
        invariant Sorted(dest) && OwnKeys(dest)
      {
        assert src[i..][1..] == src[i + 1..];
        PutKeeps(dest, src[i].key, src[i]);
        dest := Put(dest, src[i].key, src[i]);
        i := i + 1;
      }
    }
  }

  // --- Inversion ---------------------------------------------------------------------------

  /** Decoding an encoding followed by any tail gives the value back and exactly the tail. */
  ghost predicate Inverts<T(!new)>(encode: T -> Tokens, decode: Tokens -> Parse<T>) {
    forall v, tail :: decode(encode(v) + tail) == Ok((v, tail))
  }

  lemma QuantityInverts()
    ensures Inverts(EncodeQuantity, DecodeQuantity)
  {
    forall v, tail
      ensures DecodeQuantity(EncodeQuantity(v) + tail) == Ok((v, tail))
    {
      assert (EncodeQuantity(v) + tail)[1..] == tail;
    }
  }

  lemma BoolInverts(b: bool, tail: Tokens)
    ensures DecodeBool(EncodeBool(b) + tail) == Ok((b, tail))
  {
    assert (EncodeBool(b) + tail)[1..] == tail;
  }

  /** For any element codec that inverts. */
  lemma OptionalInverts<T(!new)>(encode: T -> Tokens, decode: Tokens -> Parse<T>, v: Option<T>, tail: Tokens)
    requires Inverts(encode, decode)
    ensures DecodeOptional(decode, EncodeOptional(encode, v) + tail) == Ok((v, tail))
  {
    var payload := if v.Some? then encode(v.value) else [];
    assert EncodeOptional(encode, v) + tail == EncodeBool(v.Some?) + (payload + tail);
    BoolInverts(v.Some?, payload + tail);
    assert [] + tail == tail;
  }

  /** For any payload codec that inverts. */
  lemma UpdateInverts<T(!new)>(encode: T -> Tokens, decode: Tokens -> Parse<T>, u: Update<T>, tail: Tokens)
    requires Inverts(encode, decode)
    ensures DecodeUpdate(decode, EncodeUpdate(encode, u) + tail) == Ok((u, tail))
  {
    assert EncodeUpdate(encode, u) + tail == encode(u.value) + ([TInt64(u.when)] + tail);
    assert ([TInt64(u.when)] + tail)[1..] == tail;
  }

  /** One field in front of the rest of a message. */
  lemma QuantityField(d: real, tail: Tokens)
    ensures DecodeQuantity(EncodeQuantity(d) + tail) == Ok((d, tail))
  {
    QuantityInverts();
  }

  lemma OptionalField(v: Option<real>, tail: Tokens)
    ensures DecodeOptional(DecodeQuantity, EncodeOptional(EncodeQuantity, v) + tail) == Ok((v, tail))
  {
    QuantityInverts();
    OptionalInverts(EncodeQuantity, DecodeQuantity, v, tail);
  }

  lemma PositionInverts(p: Position, tail: Tokens)
    ensures DecodePosition(EncodePosition(p) + tail) == Ok((p, tail))
  {
    var t5 := EncodeOptional(EncodeQuantity, p.vertical) + tail;
    var t4 := EncodeOptional(EncodeQuantity, p.horizontal) + t5;
    var t3 := EncodeOptional(EncodeQuantity, p.altitude) + t4;
    var t2 := EncodeQuantity(p.longitude) + t3;
    assert EncodePosition(p) + tail == EncodeQuantity(p.latitude) + t2;
    QuantityField(p.latitude, t2);
    QuantityField(p.longitude, t3);
    OptionalField(p.altitude, t4);
    OptionalField(p.horizontal, t5);
    OptionalField(p.vertical, tail);
  }

  /** Position updates, as the service sends them. */
  lemma PositionUpdateInverts(u: Update<Position>, tail: Tokens)
    ensures DecodeUpdate(DecodePosition, EncodeUpdate(EncodePosition, u) + tail) == Ok((u, tail))
  {
    forall p, t
      ensures DecodePosition(EncodePosition(p) + t) == Ok((p, t))
    {
      PositionInverts(p, t);
    }
    UpdateInverts(EncodePosition, DecodePosition, u, tail);
  }

  lemma NeedsInvert(n: Needs, tail: Tokens)
    ensures DecodeNeeds(EncodeNeeds(n) + tail) == Ok((n, tail))
  {
    var t4 := EncodeBool(n.velocity) + tail;
    var t3 := EncodeBool(n.heading) + t4;
    var t2 := EncodeBool(n.altitude) + t3;
    assert EncodeNeeds(n) + tail == EncodeBool(n.position) + t2;
    BoolInverts(n.position, t2);
    BoolInverts(n.altitude, t3);
    BoolInverts(n.heading, t4);
    BoolInverts(n.velocity, tail);
  }

  lemma AccuracyInverts(a: Accuracy, tail: Tokens)
    ensures DecodeAccuracy(EncodeAccuracy(a) + tail) == Ok((a, tail))
  {
    var t4 := EncodeOptional(EncodeQuantity, a.heading) + tail;
    var t3 := EncodeOptional(EncodeQuantity, a.velocity) + t4;
    var t2 := EncodeOptional(EncodeQuantity, a.vertical) + t3;
    assert EncodeAccuracy(a) + tail == EncodeQuantity(a.horizontal) + t2;
    QuantityField(a.horizontal, t2);
    OptionalField(a.vertical, t3);
    OptionalField(a.velocity, t4);
    OptionalField(a.heading, tail);
  }

  lemma CriteriaInParts(c: Criteria, tail: Tokens)
    ensures EncodeCriteria(c) + tail == EncodeNeeds(c.needs) + (EncodeAccuracy(c.accuracy) + tail)
  {
  }

  lemma CriteriaInverts(c: Criteria, tail: Tokens)
    ensures DecodeCriteria(EncodeCriteria(c) + tail) == Ok((c, tail))
  {
    CriteriaInParts(c, tail);
    NeedsInvert(c.needs, EncodeAccuracy(c.accuracy) + tail);
    AccuracyInverts(c.accuracy, tail);
  }

  lemma SpaceVehicleInverts(sv: SpaceVehicle, tail: Tokens)
    ensures DecodeSpaceVehicle(EncodeSpaceVehicle(sv) + tail) == Ok((sv, tail))
  {
    assert (EncodeSpaceVehicle(sv) + tail)[1..] == tail;
    var f0 := EncodeSpaceVehicle(sv)[0].fields;
    var f1 := f0[1..];
    var f2 := f1[1..];
    var f3 := f2[1..];
    var f4 := f3[1..];
    var f5 := f4[1..];
    var f6 := f5[1..];
    assert DecodeUint32(f0) == Ok((sv.key.kind, f1)) && DecodeUint32(f1) == Ok((sv.key.id, f2));
    assert DecodeQuantity(f2) == Ok((sv.snr, f3)) && DecodeBool(f3) == Ok((sv.hasAlmanacData, f4));
    assert DecodeBool(f4) == Ok((sv.hasEphimerisData, f5)) && DecodeBool(f5) == Ok((sv.usedInFix, f6));
  }

  // --- Only encodings decode ---------------------------------------------------------------

  /** A decoder takes nothing but what the encoder writes: a token of another type is an error. */
  ghost predicate Exact<T(!new)>(encode: T -> Tokens, decode: Tokens -> Parse<T>) {
    forall ts :: decode(ts).Ok? ==> ts == encode(decode(ts).value.0) + decode(ts).value.1
  }

  lemma QuantityExact()
    ensures Exact(EncodeQuantity, DecodeQuantity)
  {
  }

  lemma BoolExact(ts: Tokens)
    requires DecodeBool(ts).Ok?
    ensures ts == EncodeBool(DecodeBool(ts).value.0) + DecodeBool(ts).value.1
  {
  }

  lemma OptionalExact<T(!new)>(encode: T -> Tokens, decode: Tokens -> Parse<T>, ts: Tokens)
    requires Exact(encode, decode) && DecodeOptional(decode, ts).Ok?
    ensures var (v, rest) := DecodeOptional(decode, ts).value; ts == EncodeOptional(encode, v) + rest
  {
    BoolExact(ts);
    var (hasValue, rest) := DecodeBool(ts).value;
    if hasValue {
      var (value, tail) := decode(rest).value;
      assert ts == EncodeBool(true) + (encode(value) + tail);
    }
  }

  lemma OptionalFieldExact(ts: Tokens)
    requires DecodeOptional(DecodeQuantity, ts).Ok?
    ensures var (v, rest) := DecodeOptional(DecodeQuantity, ts).value; ts == EncodeOptional(EncodeQuantity, v) + rest
  {
    QuantityExact();
    OptionalExact(EncodeQuantity, DecodeQuantity, ts);
  }

  lemma AccuraciesExact(ts: Tokens) returns (a: Option<real>, b: Option<real>, c: Option<real>, rest: Tokens)
    requires var r1 := DecodeOptional(DecodeQuantity, ts);
             r1.Ok? && var r2 := DecodeOptional(DecodeQuantity, r1.value.1);
             r2.Ok? && DecodeOptional(DecodeQuantity, r2.value.1).Ok?
    ensures var r1 := DecodeOptional(DecodeQuantity, ts);
            var r2 := DecodeOptional(DecodeQuantity, r1.value.1);
            var r3 := DecodeOptional(DecodeQuantity, r2.value.1);
            r1.value.0 == a && r2.value.0 == b && r3.value == (c, rest)
    ensures ts == EncodeOptional(EncodeQuantity, a) +
                  (EncodeOptional(EncodeQuantity, b) + (EncodeOptional(EncodeQuantity, c) + rest))
  {
    OptionalFieldExact(ts);
    var (v1, t1) := DecodeOptional(DecodeQuantity, ts).value;
    OptionalFieldExact(t1);
    var (v2, t2) := DecodeOptional(DecodeQuantity, t1).value;
    OptionalFieldExact(t2);
    var (v3, t3) := DecodeOptional(DecodeQuantity, t2).value;
    a, b, c, rest := v1, v2, v3, t3;
  }

  lemma FiveParts(x1: Tokens, x2: Tokens, x3: Tokens, x4: Tokens, x5: Tokens, rest: Tokens)
    ensures x1 + (x2 + (x3 + (x4 + (x5 + rest)))) == x1 + x2 + x3 + x4 + x5 + rest
  {
  }

  /** Decoding and encoding positions match exactly: some tokens decode to p and a tail if and only if
      they are the encoding of p followed by that tail. */
  lemma PositionDecodesIff(ts: Tokens, p: Position, tail: Tokens)
    ensures DecodePosition(ts) == Ok((p, tail)) <==> ts == EncodePosition(p) + tail
  {
    PositionInverts(p, tail);
    if DecodePosition(ts) == Ok((p, tail)) {
      QuantityExact();
      var (latitude, t1) := DecodeQuantity(ts).value;
      var (longitude, t2) := DecodeQuantity(t1).value;
      var a, b, c, rest := AccuraciesExact(t2);
      assert p == Position(latitude, longitude, a, b, c) && tail == rest;
      FiveParts(EncodeQuantity(latitude), EncodeQuantity(longitude), EncodeOptional(EncodeQuantity, a),
                EncodeOptional(EncodeQuantity, b), EncodeOptional(EncodeQuantity, c), rest);
    }
  }

  lemma TimeExact(ts: Tokens)
    requires DecodeInt64(ts).Ok?
    ensures ts == [TInt64(DecodeInt64(ts).value.0)] + DecodeInt64(ts).value.1
  {
  }

  lemma UpdateInParts(u: Update<Position>, tail: Tokens)
    ensures EncodeUpdate(EncodePosition, u) + tail == EncodePosition(u.value) + ([TInt64(u.when)] + tail)
  {
  }

  lemma UpdateExact(ts: Tokens, u: Update<Position>, tail: Tokens)
    requires DecodeUpdate(DecodePosition, ts) == Ok((u, tail))
    ensures ts == EncodePosition(u.value) + ([TInt64(u.when)] + tail)
  {
    var rest := DecodePosition(ts).value.1;
    PositionDecodesIff(ts, u.value, rest);
    TimeExact(rest);
  }

  lemma UpdateDecodesIff(ts: Tokens, u: Update<Position>, tail: Tokens)
    ensures DecodeUpdate(DecodePosition, ts) == Ok((u, tail)) <==> ts == EncodeUpdate(EncodePosition, u) + tail
  {
    if DecodeUpdate(DecodePosition, ts) == Ok((u, tail)) {
      UpdateExact(ts, u, tail);
      UpdateInParts(u, tail);
    } else if ts == EncodeUpdate(EncodePosition, u) + tail {
      PositionUpdateInverts(u, tail);
    }
  }

  lemma NeedsExact(ts: Tokens)
    requires DecodeNeeds(ts).Ok?
    ensures ts == EncodeNeeds(DecodeNeeds(ts).value.0) + DecodeNeeds(ts).value.1
  {
    BoolExact(ts);
    var (v1, t1) := DecodeBool(ts).value;
    BoolExact(t1);
    var (v2, t2) := DecodeBool(t1).value;
    BoolExact(t2);
    var (v3, t3) := DecodeBool(t2).value;
    BoolExact(t3);
    var (v4, t4) := DecodeBool(t3).value;
    FiveParts(EncodeBool(v1), EncodeBool(v2), EncodeBool(v3), EncodeBool(v4), [], t4);
    assert [] + t4 == t4;
    assert EncodeNeeds(Needs(v1, v2, v3, v4)) + [] == EncodeNeeds(Needs(v1, v2, v3, v4));
  }

  lemma AccuracyExact(ts: Tokens)
    requires DecodeAccuracy(ts).Ok?
    ensures ts == EncodeAccuracy(DecodeAccuracy(ts).value.0) + DecodeAccuracy(ts).value.1
  {
    QuantityExact();
    var (horizontal, t1) := DecodeQuantity(ts).value;
    var a, b, c, rest := AccuraciesExact(t1);
    FiveParts([], EncodeQuantity(horizontal), EncodeOptional(EncodeQuantity, a),
              EncodeOptional(EncodeQuantity, b), EncodeOptional(EncodeQuantity, c), rest);
    assert [] + EncodeQuantity(horizontal) == EncodeQuantity(horizontal);
  }

  lemma CriteriaDecodesIff(ts: Tokens, c: Criteria, tail: Tokens)
    ensures DecodeCriteria(ts) == Ok((c, tail)) <==> ts == EncodeCriteria(c) + tail
  {
    CriteriaInverts(c, tail);
    if DecodeCriteria(ts) == Ok((c, tail)) {
      NeedsExact(ts);
      AccuracyExact(DecodeNeeds(ts).value.1);
      CriteriaInParts(c, tail);
    }
  }

  // --- The messages, place by place --------------------------------------------------------

  /** What an optional quantity looks like at place i of a message. */
  predicate OptionalAt(ts: Tokens, i: nat, v: Option<real>) {
    && i + Size(v) <= |ts| && ts[i] == TBool(v.Some?)
    && (v.Some? ==> ts[i + 1] == TDouble(v.value))
  }

  function Size(v: Option<real>): nat { if v.Some? then 2 else 1 }

  /** A position update: latitude, longitude, altitude, horizontal and vertical accuracy, then the time. */
  lemma PositionLayout(u: Update<Position>)
    ensures var ts, p := EncodeUpdate(EncodePosition, u), u.value;
            var h := 2 + Size(p.altitude);
            var v := h + Size(p.horizontal);
            var end := v + Size(p.vertical);
            && |ts| == end + 1
            && ts[0] == TDouble(p.latitude) && ts[1] == TDouble(p.longitude)
            && OptionalAt(ts, 2, p.altitude) && OptionalAt(ts, h, p.horizontal) && OptionalAt(ts, v, p.vertical)
            && ts[end] == TInt64(u.when)
  {
  }

  /** Criteria: what is required, then the accuracies, the horizontal one always. */
  lemma CriteriaLayout(c: Criteria)
    ensures var ts, n, a := EncodeCriteria(c), c.needs, c.accuracy;
            var v := 5 + Size(a.vertical);
            var h := v + Size(a.velocity);
            && |ts| == h + Size(a.heading)
            && ts[0] == TBool(n.position) && ts[1] == TBool(n.altitude)
            && ts[2] == TBool(n.heading) && ts[3] == TBool(n.velocity)
            && ts[4] == TDouble(a.horizontal) && OptionalAt(ts, 5, a.vertical)
            && OptionalAt(ts, v, a.velocity) && OptionalAt(ts, h, a.heading)
  {
  }

  /** A satellite map: one array with one structure per entry, in key order; each holds the type and the id
      of the vehicle's own key, then what is known about it. */
  lemma {:induction false} MapLayout(m: SvMap, i: nat)
    requires i < |m|
    ensures EncodeMap(m) == [TArray(ElementTokens(m))] && |ElementTokens(m)| == |m|
    ensures var sv := m[i].1;
            ElementTokens(m)[i] ==
              TStruct([TUint32(sv.key.kind), TUint32(sv.key.id), TDouble(sv.snr), TBool(sv.hasAlmanacData),
                       TBool(sv.hasEphimerisData), TBool(sv.usedInFix), TDouble(sv.azimuth), TDouble(sv.elevation)])
  {
    if |m| > 1 {
      MapLayout(m[1..], if i > 0 then i - 1 else 0);
    } else {
      assert ElementTokens(m[1..]) == [];
    }
  }

  // --- The satellite map -------------------------------------------------------------------

  /** Inserting beyond the last key appends. */
  lemma {:induction false} InsertLast(m: SvMap, k: Key, v: SpaceVehicle)
    requires forall i :: 0 <= i < |m| ==> Less(m[i].0, k)
    ensures Insert(m, k, v) == m + [(k, v)]
  {
    if m != [] {
      InsertLast(m[1..], k, v);
    }
  }

  lemma {:induction false} InsertKeepsOwnKeys(m: SvMap, sv: SpaceVehicle)
    requires OwnKeys(m)
    ensures OwnKeys(Insert(m, sv.key, sv))
  {
    if m != [] {
      InsertKeepsOwnKeys(m[1..], sv);
    }
  }

  /** insert() keeps the entry that is there, or adds the new one and nothing else, in key order. */
  lemma {:induction false} InsertMeans(m: SvMap, k: Key, v: SpaceVehicle)
    requires Sorted(m)
    ensures var m' := Insert(m, k, v);
            && Sorted(m')
            && (if exists i :: 0 <= i < |m| && m[i].0 == k then m' == m
                else (k, v) in m' && forall e :: e in m' <==> e in m || e == (k, v))
  {
    if m == [] || Less(k, m[0].0) {
      assert forall e :: e in Insert(m, k, v) <==> e in m || e == (k, v);
    } else if k != m[0].0 {
      var tail := Insert(m[1..], k, v);
      InsertMeans(m[1..], k, v);
      assert forall i :: 0 <= i < |m| - 1 ==> m[1..][i] == m[i + 1];
      assert Insert(m, k, v) == [m[0]] + tail;
      forall i | 0 <= i < |tail|
        ensures Less(m[0].0, tail[i].0)
      {
        assert tail[i] in tail;
      }
      if exists i :: 0 <= i < |m| && m[i].0 == k {
        var i :| 0 <= i < |m| && m[i].0 == k;
        assert m[1..][i - 1].0 == k;
      } else {
        assert !exists i :: 0 <= i < |m[1..]| && m[1..][i].0 == k;
      }
    }
  }

  /** One element decoded onto entries with smaller keys. */
  lemma ElementDecodes(m: SvMap, out: SvMap)
    requires m != [] && m[0].0 == m[0].1.key
    requires forall i :: 0 <= i < |out| ==> Less(out[i].0, m[0].0)
    ensures DecodeElements(ElementTokens(m), out) == DecodeElements(ElementTokens(m[1..]), out + [m[0]])
  {
    SpaceVehicleInverts(m[0].1, ElementTokens(m[1..]));
    InsertLast(out, m[0].0, m[0].1);
    assert out + [(m[0].0, m[0].1)] == out + [m[0]];
  }

  predicate Below(out: SvMap, m: SvMap) {
    forall i, j :: 0 <= i < |out| && 0 <= j < |m| ==> Less(out[i].0, m[j].0)
  }

  lemma BelowNext(out: SvMap, m: SvMap)
    requires m != [] && Sorted(m) && Below(out, m)
    ensures Sorted(m[1..]) && Below(out + [m[0]], m[1..])
    ensures (out + [m[0]]) + m[1..] == out + m
  {
  }

  lemma {:induction false} ElementsDecode(m: SvMap, out: SvMap)
    requires OwnKeys(m) && Sorted(m) && Below(out, m)
    ensures DecodeElements(ElementTokens(m), out) == Ok(out + m)
  {
    if m == [] {
      assert out + m == out;
    } else {
      ElementDecodes(m, out);
      BelowNext(out, m);
      ElementsDecode(m[1..], out + [m[0]]);
    }
  }

  /** Whatever is decoded lands under its own key. */
  lemma {:induction false} DecodedOwnKeys(ts: Tokens, out: SvMap)
    requires OwnKeys(out)
    ensures DecodeElements(ts, out).Ok? ==> OwnKeys(DecodeElements(ts, out).value)
    decreases |ts|
  {
    if ts != [] {
      var r := DecodeSpaceVehicle(ts);
      if r.Ok? && |r.value.1| < |ts| {
        InsertKeepsOwnKeys(out, r.value.0);
        DecodedOwnKeys(r.value.1, Insert(out, r.value.0.key, r.value.0));
      }
    }
  }

  /** An encoded satellite map decodes, into an empty map, to itself and exactly the tail: if and only
      if every entry is stored under its own key. */
  lemma MapInverts(m: SvMap, tail: Tokens)
    requires Sorted(m)
    ensures DecodeMap(EncodeMap(m) + tail, []) == Ok((m, tail)) <==> OwnKeys(m)
  {
    var ts := EncodeMap(m) + tail;
    assert ts[0] == TArray(ElementTokens(m)) && ts[1..] == tail;
    if OwnKeys(m) {
      assert [] + m == m;
      ElementsDecode(m, []);
    } else {
      DecodedOwnKeys(ElementTokens(m), []);
    }
  }

  /** The engine stores every satellite under its own key and keeps the map sorted. */
  lemma {:induction false} PutKeeps(m: SvMap, k: Key, v: SpaceVehicle)
    requires Sorted(m) && OwnKeys(m) && k == v.key
    ensures var m' := Put(m, k, v);
            && Sorted(m') && OwnKeys(m')
            && (forall i :: 0 <= i < |m'| ==> m'[i] == (k, v) || m'[i] in m)
            && (k, v) in m'
            && (forall e :: e in m && e.0 != k ==> e in m')
  {
    if m == [] || Less(k, m[0].0) {
    } else if k == m[0].0 {
      assert m[0] == m[0];
    } else {
      PutKeeps(m[1..], k, v);
      var tail := Put(m[1..], k, v);
      assert forall i :: 0 <= i < |m| - 1 ==> m[1..][i] == m[i + 1];
      forall i | 0 <= i < |tail|
        ensures Less(m[0].0, tail[i].0)
      {
        if tail[i] != (k, v) {
          assert tail[i] in m[1..];
        }
      }
      assert Put(m, k, v) == [m[0]] + tail;
    }
  }

  /** The last report about key k. */
  function LastAbout(svs: seq<SpaceVehicle>, k: Key): Option<SpaceVehicle> {
    if svs == [] then None
    else if svs[|svs| - 1].key == k then Some(svs[|svs| - 1])
    else LastAbout(svs[..|svs| - 1], k)
  }

  function LastOf(sv: SpaceVehicle, rest: seq<SpaceVehicle>, k: Key): Option<SpaceVehicle> {
    var later := LastAbout(rest, k);
    if later.Some? then later else if sv.key == k then Some(sv) else None
  }

  lemma {:induction false} LastAboutFirst(svs: seq<SpaceVehicle>, k: Key)
    requires svs != []
    ensures LastAbout(svs, k) == LastOf(svs[0], svs[1..], k)
  {
    if |svs| > 1 && svs[|svs| - 1].key != k {
      LastAboutFirst(svs[..|svs| - 1], k);
      assert svs[..|svs| - 1][1..] == svs[1..][..|svs| - 2];
    }
  }

  /** The engine knows of every satellite what was reported last, and keeps what is not reported again. */
  lemma {:induction false} AccumulatedIsLatest(dest: SvMap, svs: seq<SpaceVehicle>, e: (Key, SpaceVehicle))
    requires Sorted(dest) && OwnKeys(dest)
    ensures e in Accumulate(dest, svs) <==>
              var last := LastAbout(svs, e.0);
              if last.Some? then e.1 == last.value else e in dest
    decreases |svs|
  {
    if svs != [] {
      var sv := svs[0];
      PutKeeps(dest, sv.key, sv);
      var next := Put(dest, sv.key, sv);
      AccumulatedIsLatest(next, svs[1..], e);
      LastAboutFirst(svs, e.0);
      OneEntryPerKey(next, sv.key, sv, e);
      if e in next && e.0 != sv.key {
        assert e in dest;
      }
    }
  }

  lemma OneEntryPerKey(m: SvMap, k: Key, v: SpaceVehicle, e: (Key, SpaceVehicle))
    requires Sorted(m) && (k, v) in m
    ensures e.0 == k ==> (e in m <==> e.1 == v)
  {
    var j :| 0 <= j < |m| && m[j] == (k, v);
    if e in m && e.0 == k {
      var i :| 0 <= i < |m| && m[i] == e;
      assert i == j;
    }
  }

  /** So what the engine accumulates from any reports survives the trip over the bus. */
  lemma {:induction false} AccumulatedMapInverts(dest: SvMap, svs: seq<SpaceVehicle>, tail: Tokens)
    requires Sorted(dest) && OwnKeys(dest)
    ensures var m := Accumulate(dest, svs);
            Sorted(m) && OwnKeys(m) && DecodeMap(EncodeMap(m) + tail, []) == Ok((m, tail))
    decreases |svs|
  {
    if svs == [] {
      MapInverts(dest, tail);
    } else {
      PutKeeps(dest, svs[0].key, svs[0]);
      AccumulatedMapInverts(Put(dest, svs[0].key, svs[0]), svs[1..], tail);
    }
  }
}
