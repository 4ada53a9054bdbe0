/**
 The byte form of the gateway's records (crates/meshmine-gateway/src/lib.rs,
 with the miner header of crates/meshmine-hns/src/header.rs). A record is a
 list of fields; what holds for each kind of field holds for every record.
 */
module DurableRecords {
  import opened Wrappers
  import opened Bytes
  import opened GatewayStore
  import Bits
  import Codec
  import GatewayRecords
  import GatewayRun
  import PublicationIntent

  /**
   Little-endian numbers, one byte below a limit, fixed byte strings, constants,
   counted UTF-8 text, and counted lists of fixed-size numbers.
   */
  datatype Field =
    | Word(width: nat) | Tag(limit: nat) | Blob(length: nat) | Magic(text: seq<Byte>)
    | Name(width: nat, minimum: nat, maximum: nat) | Words(width: nat, maximum: nat, each: nat)

  datatype Value = Number(n: nat) | Raw(bytes: seq<Byte>) | Numbers(ns: seq<nat>)

  predicate AllWithin(ns: seq<nat>, bound: nat) { forall i :: 0 <= i < |ns| ==> ns[i] < bound }

  predicate Fits(f: Field, v: Value) {
    match f
    case Word(w) => v.Number? && v.n < Pow256(w)
    case Tag(limit) => v.Number? && v.n < limit && v.n < 256
    case Blob(n) => v.Raw? && |v.bytes| == n
    case Magic(text) => v == Raw(text)
    case Name(w, lo, hi) => v.Raw? && lo <= |v.bytes| <= hi && |v.bytes| < Pow256(w) && PublicationIntent.Utf8(v.bytes)
    case Words(w, hi, each) => v.Numbers? && |v.ns| <= hi && |v.ns| < Pow256(w) && AllWithin(v.ns, Pow256(each))
  }

  function PutWords(ns: seq<nat>, each: nat): seq<Byte> {
    if ns == [] then [] else Codec.EncodeLittle(ns[0], each) + PutWords(ns[1..], each)
  }

  function Put(f: Field, v: Value): seq<Byte>
    requires Fits(f, v)
  {
    match f
    case Word(w) => Codec.EncodeLittle(v.n, w)
    case Tag(_) => [v.n]
    case Blob(_) => v.bytes
    case Magic(text) => text
    case Name(w, _, _) => Codec.EncodeLittle(|v.bytes|, w) + v.bytes
    case Words(w, _, each) => Codec.EncodeLittle(|v.ns|, w) + PutWords(v.ns, each)
  }

  /** A value read and the bytes after it. */
  type Reading<T> = Option<(T, seq<Byte>)>

  function Take(s: seq<Byte>, n: nat): Reading<seq<Byte>> { if n > |s| then None else Some((s[..n], s[n..])) }

  function GetWord(s: seq<Byte>, w: nat): Reading<nat> {
    if w > |s| then None else Some((Codec.LittleEndian(s[..w]), s[w..]))
  }

  function GetWords(s: seq<Byte>, count: nat, each: nat): Reading<seq<nat>> {
    if count == 0 then Some(([], s)) else
      var first := GetWord(s, each);
      if first.None? then None else
        var others := GetWords(first.value.1, count - 1, each);
        if others.None? then None else Some(([first.value.0] + others.value.0, others.value.1))
  }

  function GetTag(s: seq<Byte>, limit: nat): Reading<Value> {
    if s == [] || s[0] >= limit then None else Some((Number(s[0]), s[1..]))
  }

  function GetBlob(s: seq<Byte>, n: nat): Reading<Value> {
    var r := Take(s, n);
    if r.None? then None else Some((Raw(r.value.0), r.value.1))
  }

  function GetMagic(s: seq<Byte>, text: seq<Byte>): Reading<Value> {
    var r := Take(s, |text|);
    if r.None? || r.value.0 != text then None else Some((Raw(text), r.value.1))
  }

  function GetName(s: seq<Byte>, w: nat, lo: nat, hi: nat): Reading<Value> {
    var length := GetWord(s, w);
    if length.None? || !(lo <= length.value.0 <= hi) then None else
      var r := Take(length.value.1, length.value.0);
      if r.None? || !PublicationIntent.Utf8(r.value.0) then None else Some((Raw(r.value.0), r.value.1))
  }

  function GetList(s: seq<Byte>, w: nat, hi: nat, each: nat): Reading<Value> {
    var count := GetWord(s, w);
    if count.None? || count.value.0 > hi then None else
      var r := GetWords(count.value.1, count.value.0, each);
      if r.None? then None else Some((Numbers(r.value.0), r.value.1))
  }

  function GetNumber(s: seq<Byte>, w: nat): Reading<Value> {
    var r := GetWord(s, w);
    if r.None? then None else Some((Number(r.value.0), r.value.1))
  }

  function Get(f: Field, s: seq<Byte>): Reading<Value> {
    match f
    case Word(w) => GetNumber(s, w)
    case Tag(limit) => GetTag(s, limit)
    case Blob(n) => GetBlob(s, n)
    case Magic(text) => GetMagic(s, text)
    case Name(w, lo, hi) => GetName(s, w, lo, hi)
    case Words(w, hi, each) => GetList(s, w, hi, each)
  }

  // ---- One field, both ways ----

  lemma FirstAndRest<T>(s: seq<T>)
    requires s != []
    ensures [s[0]] + s[1..] == s
  {
  }

  lemma TakeBack(bytes: seq<Byte>, rest: seq<Byte>)
    ensures Take(bytes + rest, |bytes|) == Some((bytes, rest))
  {
  }

  lemma WordBack(n: nat, w: nat, rest: seq<Byte>)
    requires n < Pow256(w)
    ensures GetWord(Codec.EncodeLittle(n, w) + rest, w) == Some((n, rest))
  {
    Codec.LittleRoundTrip(n, w);
    assert (Codec.EncodeLittle(n, w) + rest)[..w] == Codec.EncodeLittle(n, w);
  }

  lemma WordForth(s: seq<Byte>, w: nat)
    requires w <= |s|
    ensures Codec.LittleEndian(s[..w]) < Pow256(w) && s == Codec.EncodeLittle(Codec.LittleEndian(s[..w]), w) + s[w..]
  {
    Codec.LittleCanonical(s[..w]);
  }

  lemma {:induction false} WordsBack(ns: seq<nat>, each: nat, rest: seq<Byte>)
    requires AllWithin(ns, Pow256(each))
    ensures GetWords(PutWords(ns, each) + rest, |ns|, each) == Some((ns, rest))
  {
    if ns == [] {
      assert PutWords(ns, each) + rest == rest;
    } else {
      WordBack(ns[0], each, PutWords(ns[1..], each) + rest);
      WordsBack(ns[1..], each, rest);
      Associate(Codec.EncodeLittle(ns[0], each), PutWords(ns[1..], each), rest);
      FirstAndRest(ns);
    }
  }

  lemma {:induction false} WordsForth(s: seq<Byte>, count: nat, each: nat)
    requires GetWords(s, count, each).Some?
    ensures var (ns, rest) := GetWords(s, count, each).value;
            |ns| == count && AllWithin(ns, Pow256(each)) && s == PutWords(ns, each) + rest
    decreases count
  {
    if count == 0 {
      assert PutWords([], each) + s == s;
    } else {
      WordForth(s, each);
      var (n, after) := GetWord(s, each).value;
      WordsForth(after, count - 1, each);
      var (ns, rest) := GetWords(after, count - 1, each).value;
      assert ([n] + ns)[1..] == ns;
      Associate(Codec.EncodeLittle(n, each), PutWords(ns, each), rest);
    }
  }

  lemma NameBack(bytes: seq<Byte>, w: nat, lo: nat, hi: nat, rest: seq<Byte>)
    requires Fits(Name(w, lo, hi), Raw(bytes))
    ensures GetName(Codec.EncodeLittle(|bytes|, w) + bytes + rest, w, lo, hi) == Some((Raw(bytes), rest))
  {
    WordBack(|bytes|, w, bytes + rest);
    Associate(Codec.EncodeLittle(|bytes|, w), bytes, rest);
    TakeBack(bytes, rest);
  }

  lemma NameForth(s: seq<Byte>, w: nat, lo: nat, hi: nat)
    requires GetName(s, w, lo, hi).Some?
    ensures var (v, rest) := GetName(s, w, lo, hi).value;
            Fits(Name(w, lo, hi), v) && s == Put(Name(w, lo, hi), v) + rest
  {
    WordForth(s, w);
    var (length, after) := GetWord(s, w).value;
    assert after == after[..length] + after[length..];
  }

  lemma ListBack(ns: seq<nat>, w: nat, hi: nat, each: nat, rest: seq<Byte>)
    requires Fits(Words(w, hi, each), Numbers(ns))
    ensures GetList(Codec.EncodeLittle(|ns|, w) + PutWords(ns, each) + rest, w, hi, each) == Some((Numbers(ns), rest))
  {
    WordBack(|ns|, w, PutWords(ns, each) + rest);
    WordsBack(ns, each, rest);
    Associate(Codec.EncodeLittle(|ns|, w), PutWords(ns, each), rest);
  }

  lemma ListForth(s: seq<Byte>, w: nat, hi: nat, each: nat)
    requires GetList(s, w, hi, each).Some?
    ensures var (v, rest) := GetList(s, w, hi, each).value;
            Fits(Words(w, hi, each), v) && s == Put(Words(w, hi, each), v) + rest
  {
    WordForth(s, w);
    var (count, after) := GetWord(s, w).value;
    WordsForth(after, count, each);
  }

  /** Reading undoes writing, whatever comes after. */
  lemma FieldBack(f: Field, v: Value, rest: seq<Byte>)
    requires Fits(f, v)
    ensures Get(f, Put(f, v) + rest) == Some((v, rest))
  {
    match f {
      case Word(w) => WordBack(v.n, w, rest);
      case Name(w, lo, hi) => NameBack(v.bytes, w, lo, hi, rest);
      case Words(w, hi, each) => ListBack(v.ns, w, hi, each, rest);
      case _ =>
    }
  }

  /** Writing undoes reading. */
  lemma FieldForth(f: Field, s: seq<Byte>)
    requires Get(f, s).Some?
    ensures var (v, rest) := Get(f, s).value; Fits(f, v) && s == Put(f, v) + rest
  {
    match f {
      case Word(w) => WordForth(s, w);
      case Name(w, lo, hi) => NameForth(s, w, lo, hi);
      case Words(w, hi, each) => ListForth(s, w, hi, each);
      case _ =>
    }
  }

  // ---- Whole records, both ways ----

  predicate FitAll(fs: seq<Field>, vs: seq<Value>) { |vs| == |fs| && forall i :: 0 <= i < |fs| ==> Fits(fs[i], vs[i]) }

  function PutAll(fs: seq<Field>, vs: seq<Value>): seq<Byte>
    requires FitAll(fs, vs)
  {
    if fs == [] then [] else Put(fs[0], vs[0]) + PutAll(fs[1..], vs[1..])
  }

  function GetAll(fs: seq<Field>, s: seq<Byte>): Reading<seq<Value>> {
    if fs == [] then Some(([], s)) else
      var first := Get(fs[0], s);
      if first.None? then None else
        var others := GetAll(fs[1..], first.value.1);
        if others.None? then None else Some(([first.value.0] + others.value.0, others.value.1))
  }

  /** A record uses up its bytes. */
  function Decode(fs: seq<Field>, bytes: seq<Byte>): Option<seq<Value>> {
    var r := GetAll(fs, bytes);
    if r.None? || r.value.1 != [] then None else Some(r.value.0)
  }

  lemma {:induction false} AllBack(fs: seq<Field>, vs: seq<Value>, rest: seq<Byte>)
    requires FitAll(fs, vs)
    ensures GetAll(fs, PutAll(fs, vs) + rest) == Some((vs, rest))
  {
    if fs == [] {
      assert PutAll(fs, vs) + rest == rest;
    } else {
      FieldBack(fs[0], vs[0], PutAll(fs[1..], vs[1..]) + rest);
      AllBack(fs[1..], vs[1..], rest);
      Associate(Put(fs[0], vs[0]), PutAll(fs[1..], vs[1..]), rest);
      FirstAndRest(vs);
    }
  }

  lemma {:induction false} AllForth(fs: seq<Field>, s: seq<Byte>)
    requires GetAll(fs, s).Some?
    ensures var (vs, rest) := GetAll(fs, s).value; FitAll(fs, vs) && s == PutAll(fs, vs) + rest
  {
    if fs == [] {
      assert PutAll(fs, []) + s == s;
    } else {
      FieldForth(fs[0], s);
      var (v, after) := Get(fs[0], s).value;
      AllForth(fs[1..], after);
      var (vs, rest) := GetAll(fs[1..], after).value;
      assert ([v] + vs)[1..] == vs;
      Associate(Put(fs[0], v), PutAll(fs[1..], vs), rest);
    }
  }

  /** Decoding undoes encoding. */
  lemma RecordBack(fs: seq<Field>, vs: seq<Value>)
    requires FitAll(fs, vs)
    ensures Decode(fs, PutAll(fs, vs)) == Some(vs)
  {
    AllBack(fs, vs, []);
    assert PutAll(fs, vs) + [] == PutAll(fs, vs);
  }

  /** Encoding undoes decoding: at most one byte string decodes to a record. */
  lemma RecordForth(fs: seq<Field>, bytes: seq<Byte>)
    requires Decode(fs, bytes).Some?
    ensures FitAll(fs, Decode(fs, bytes).value) && PutAll(fs, Decode(fs, bytes).value) == bytes
  {
    AllForth(fs, bytes);
    var vs := Decode(fs, bytes).value;
    assert PutAll(fs, vs) + [] == PutAll(fs, vs);
  }

  // ---- The reader ----

  /** Reading past the end fails and leaves the cursor alone. */
  class DurableReader {
    const bytes: seq<Byte>
    var cursor: nat

    predicate Valid()
      reads this
    {
      cursor <= |bytes|
    }

    function Rest(): seq<Byte>
      reads this
      requires Valid()
    {
      bytes[cursor..]
    }

    constructor (bytes: seq<Byte>)
      ensures Valid() && this.bytes == bytes && Rest() == bytes
    {
      this.bytes, cursor := bytes, 0;
    }

    method TakeBytes(n: nat) returns (r: Option<seq<Byte>>)
      requires Valid()
      modifies this`cursor
      ensures Valid() && r.Some? == Take(old(Rest()), n).Some?
      ensures r.Some? ==> Take(old(Rest()), n) == Some((r.value, Rest()))
      ensures r.None? ==> cursor == old(cursor)
    {
      if n > |bytes| - cursor {
        return None;
      }
      assert Rest()[..n] == bytes[cursor..cursor + n] && Rest()[n..] == bytes[cursor + n..];
      r := Some(bytes[cursor..cursor + n]);
      cursor := cursor + n;
    }

    method TakeWord(w: nat) returns (r: Option<nat>)
      requires Valid()
      modifies this`cursor
      ensures Valid() && r.Some? == GetWord(old(Rest()), w).Some?
      ensures r.Some? ==> GetWord(old(Rest()), w) == Some((r.value, Rest()))
    {
      var taken := TakeBytes(w);
      r := if taken.None? then None else Some(Codec.LittleEndian(taken.value));
    }

    method TakeWords(count: nat, each: nat) returns (r: Option<seq<nat>>)
      requires Valid()
      modifies this`cursor
      ensures Valid() && r.Some? == GetWords(old(Rest()), count, each).Some?
      ensures r.Some? ==> GetWords(old(Rest()), count, each) == Some((r.value, Rest()))
    {
      var ns: seq<nat> := [];
      PrependNothing(GetWords(Rest(), count, each));
      for i := 0 to count
        invariant Valid() && GetWords(old(Rest()), count, each) == Prepend(ns, GetWords(Rest(), count - i, each))
      {
        var n := TakeWord(each);
        if n.None? {
          return None;
        }
        PrependOne(ns, n.value, GetWords(Rest(), count - i - 1, each));
        ns := ns + [n.value];
      }
      assert ns + [] == ns;
      r := Some(ns);
    }

    /** One field. */
    method Read(f: Field) returns (r: Option<Value>)
      requires Valid()
      modifies this`cursor
      ensures Valid() && Reads(f, old(Rest()), r, Rest())
    {
      match f {
        case Word(w) =>
          var n := TakeWord(w);
          r := if n.None? then None else Some(Number(n.value));
        case Tag(limit) =>
          var b := TakeBytes(1);
          r := if b.None? || b.value[0] >= limit then None else Some(Number(b.value[0]));
        case Blob(n) =>
          var b := TakeBytes(n);
          r := if b.None? then None else Some(Raw(b.value));
        case Magic(text) =>
          var b := TakeBytes(|text|);
          r := if b.None? || b.value != text then None else Some(Raw(b.value));
        case Name(w, lo, hi) => r := ReadName(w, lo, hi);
        case Words(w, hi, each) => r := ReadList(w, hi, each);
      }
    }

    method ReadName(w: nat, lo: nat, hi: nat) returns (r: Option<Value>)
      requires Valid()
      modifies this`cursor
      ensures Valid() && r.Some? == GetName(old(Rest()), w, lo, hi).Some?
      ensures r.Some? ==> GetName(old(Rest()), w, lo, hi) == Some((r.value, Rest()))
    {
      var length := TakeWord(w);
      if length.None? || length.value < lo || length.value > hi {
        return None;
      }
      var text := TakeBytes(length.value);
      r := if text.None? || !PublicationIntent.Utf8(text.value) then None else Some(Raw(text.value));
    }

    method ReadList(w: nat, hi: nat, each: nat) returns (r: Option<Value>)
      requires Valid()
      modifies this`cursor
      ensures Valid() && r.Some? == GetList(old(Rest()), w, hi, each).Some?
      ensures r.Some? ==> GetList(old(Rest()), w, hi, each) == Some((r.value, Rest()))
    {
      var count := TakeWord(w);
      if count.None? || count.value > hi {
        return None;
      }
      var ns := TakeWords(count.value, each);
      r := if ns.None? then None else Some(Numbers(ns.value));
    }
  }

  /** What reading the rest adds to the values already read. */
  function Prepend<T>(before: seq<T>, reading: Reading<seq<T>>): Reading<seq<T>> {
    if reading.None? then None else Some((before + reading.value.0, reading.value.1))
  }

  lemma PrependNothing<T>(reading: Reading<seq<T>>)
    ensures Prepend([], reading) == reading
  {
    if reading.Some? {
      assert [] + reading.value.0 == reading.value.0;
    }
  }

  lemma AllStep(fs: seq<Field>, i: nat, s: seq<Byte>)
    requires i < |fs|
    ensures Get(fs[i], s).None? ==> GetAll(fs[i..], s) == None
    ensures Get(fs[i], s).Some? ==> GetAll(fs[i..], s) ==
                                    Prepend([Get(fs[i], s).value.0], GetAll(fs[i + 1..], Get(fs[i], s).value.1))
  {
    assert fs[i..][0] == fs[i] && fs[i..][1..] == fs[i + 1..];
  }

  lemma PrependOne<T>(before: seq<T>, x: T, reading: Reading<seq<T>>)
    ensures Prepend(before, Prepend([x], reading)) == Prepend(before + [x], reading)
  {
    if reading.Some? {
      assert before + ([x] + reading.value.0) == before + [x] + reading.value.0;
    }
  }

  /** The outcome of reading one field of these bytes. */
  ghost predicate Reads(f: Field, s: seq<Byte>, r: Option<Value>, rest: seq<Byte>) {
    forall j: int {:trigger Opened(j)} :: Opened(j) && j == 23 ==>
      r.Some? == Get(f, s).Some? && (r.Some? ==> Get(f, s) == Some((r.value, rest)))
  }

  /** The fields before number i gave these values and left these bytes. */
  ghost predicate ReadSoFar(fs: seq<Field>, bytes: seq<Byte>, i: nat, vs: seq<Value>, rest: seq<Byte>)
    requires i <= |fs|
  {
    forall j: int {:trigger Opened(j)} :: Opened(j) && j == 22 ==>
      GetAll(fs, bytes) == Prepend(vs, GetAll(fs[i..], rest))
  }

  lemma ReadNone(fs: seq<Field>, bytes: seq<Byte>)
    ensures ReadSoFar(fs, bytes, 0, [], bytes)
  {
    assert fs[0..] == fs;
    PrependNothing(GetAll(fs, bytes));
  }

  lemma ReadFails(fs: seq<Field>, bytes: seq<Byte>, i: nat, vs: seq<Value>, rest: seq<Byte>, after: seq<Byte>)
    requires i < |fs| && ReadSoFar(fs, bytes, i, vs, rest) && Reads(fs[i], rest, None, after)
    ensures Decode(fs, bytes) == None
  {
    assert Opened(22) && Opened(23);
    AllStep(fs, i, rest);
  }

  lemma ReadOne(fs: seq<Field>, bytes: seq<Byte>, i: nat, vs: seq<Value>, rest: seq<Byte>, v: Value, after: seq<Byte>)
    requires i < |fs| && ReadSoFar(fs, bytes, i, vs, rest) && Reads(fs[i], rest, Some(v), after)
    ensures ReadSoFar(fs, bytes, i + 1, vs + [v], after)
  {
    assert Opened(22) && Opened(23);
    AllStep(fs, i, rest);
    PrependOne(vs, v, GetAll(fs[i + 1..], after));
  }

  lemma ReadEverything(fs: seq<Field>, bytes: seq<Byte>, vs: seq<Value>, rest: seq<Byte>)
    requires ReadSoFar(fs, bytes, |fs|, vs, rest)
    ensures Decode(fs, bytes) == if rest == [] then Some(vs) else None
  {
    assert Opened(22);
    assert vs + [] == vs;
  }

  /** Field by field, and then the end of the bytes. */
  method DecodeRecord(fs: seq<Field>, bytes: seq<Byte>) returns (r: Option<seq<Value>>)
    ensures r == Decode(fs, bytes)
  {
    var reader := new DurableReader(bytes);
    var vs: seq<Value> := [];
    ReadNone(fs, bytes);
    for i := 0 to |fs|
      invariant reader.Valid() && reader.bytes == bytes && ReadSoFar(fs, bytes, i, vs, reader.Rest())
    {
      ghost var rest := reader.Rest();
      var v := reader.Read(fs[i]);
      if v.None? {
        ReadFails(fs, bytes, i, vs, rest, reader.Rest());
        return None;
      }
      ReadOne(fs, bytes, i, vs, rest, v.value, reader.Rest());
      vs := vs + [v.value];
    }
    ReadEverything(fs, bytes, vs, reader.Rest());
    r := if reader.cursor == |bytes| then Some(vs) else None;
  }

  // ---- The records ----

  const JOB: seq<Field> := [
    Name(8, 0, 64), Word(8), Word(32), Word(32), Word(32), Word(32), Word(32), Word(4), Word(4), Word(4), Word(32),
    Word(2), Word(2), Blob(32), Blob(32), Word(4), Word(8), Word(8), Word(8), Words(8, MAX_JOB_TRANSACTIONS, 32)]

  function JobValues(job: Job): (vs: seq<Value>)
    ensures |vs| == 20
  {
    [Raw(job.id.bytes), Number(job.sequence), Number(job.previousBlock), Number(job.merkleRoot),
     Number(job.witnessRoot), Number(job.treeRoot), Number(job.reservedRoot), Number(job.version), Number(job.bits),
     Number(job.ntime), Number(job.maskHash), Number(job.prefix), Number(job.blindBand),
     Raw(job.captureTarget.bytes), Raw(job.advertisedTarget.bytes), Number(job.difficulty),
     Number(job.issuedMs), Number(job.assignmentEndMs), Number(job.submissionEndMs), Numbers(job.transactions.hashes)]
  }

  predicate Kind(f: Field, v: Value) {
    match f
    case Word(_) => v.Number?
    case Tag(_) => v.Number?
    case Blob(_) => v.Raw?
    case Magic(text) => v == Raw(text)
    case Name(_, _, _) => v.Raw?
    case Words(_, _, _) => v.Numbers?
  }

  predicate Kinds(fs: seq<Field>, vs: seq<Value>) { |vs| == |fs| && forall i :: 0 <= i < |fs| ==> Kind(fs[i], vs[i]) }

  lemma FittingKinds(fs: seq<Field>, vs: seq<Value>)
    requires FitAll(fs, vs)
    ensures Kinds(fs, vs)
  {
    forall i | 0 <= i < |fs| ensures Kind(fs[i], vs[i]) {
      assert Fits(fs[i], vs[i]);
    }
  }

  function JobOf(vs: seq<Value>): Job
    requires Kinds(JOB, vs)
  {
    Job(Text(vs[0].bytes), vs[1].n, vs[2].n, vs[3].n, vs[4].n, vs[5].n, vs[6].n, vs[10].n, vs[7].n, vs[8].n, vs[9].n,
        vs[11].n, vs[12].n,
        Text(vs[13].bytes), Text(vs[14].bytes), vs[15].n, vs[16].n, vs[17].n, vs[18].n, Transactions(vs[19].ns))
  }

  lemma JobKinds(job: Job)
    ensures Kinds(JOB, JobValues(job)) && JobOf(JobValues(job)) == job
  {
  }

  lemma JobBack(vs: seq<Value>)
    requires Kinds(JOB, vs)
    ensures JobValues(JobOf(vs)) == vs
  {
    forall i | 0 <= i < 20 ensures JobValues(JobOf(vs))[i] == vs[i] {
      assert Kind(JOB[i], vs[i]);
    }
  }

  /** Every field within its width, the id valid UTF-8 of at most 64 bytes. */
  predicate SizedJob(job: Job) { FitAll(JOB, JobValues(job)) }

  function EncodeJob(job: Job): seq<Byte>
    requires SizedJob(job)
  {
    PutAll(JOB, JobValues(job))
  }

  function DecodeJob(bytes: seq<Byte>): (r: Option<Job>)
    ensures r.Some? <==> Decode(JOB, bytes).Some?
  {
    var vs := Decode(JOB, bytes);
    if vs.None? then None else
      RecordForth(JOB, bytes);
      FittingKinds(JOB, vs.value);
      Some(JobOf(vs.value))
  }

  /** A stored job is read back unchanged. */
  lemma JobSurvives(job: Job)
    requires SizedJob(job)
    ensures DecodeJob(EncodeJob(job)) == Some(job)
  {
    RecordBack(JOB, JobValues(job));
    JobKinds(job);
  }

  /** Only the bytes of a job decode to it. */
  lemma JobBytes(bytes: seq<Byte>)
    requires DecodeJob(bytes).Some?
    ensures SizedJob(DecodeJob(bytes).value) && EncodeJob(DecodeJob(bytes).value) == bytes
  {
    RecordForth(JOB, bytes);
    FittingKinds(JOB, Decode(JOB, bytes).value);
    JobBack(Decode(JOB, bytes).value);
  }

  /** Comparing encodings, as a repeated issue does, compares jobs. */
  lemma SameJobSameBytes(a: Job, b: Job)
    requires SizedJob(a) && SizedJob(b)
    ensures EncodeJob(a) == EncodeJob(b) <==> a == b
  {
    JobSurvives(a);
    JobSurvives(b);
  }

  // ---- Job states ----

  const STATE_PREFIX: seq<Byte> := [77, 77, 71, 83, 2, 0]
  const ACTIVE: seq<Field> := [Magic(STATE_PREFIX + [0])]
  const GRACE: seq<Field> := [Magic(STATE_PREFIX + [1]), Word(8), Word(8)]
  const CLOSED: seq<Field> := [Magic(STATE_PREFIX + [2])]

  function StateFields(state: JobState): seq<Field> {
    match state
    case Active => ACTIVE
    case Grace(_, _) => GRACE
    case Closed => CLOSED
  }

  function StateValues(state: JobState): seq<Value> {
    match state
    case Active => [Raw(STATE_PREFIX + [0])]
    case Grace(cutoff, end) => [Raw(STATE_PREFIX + [1]), Number(cutoff), Number(end)]
    case Closed => [Raw(STATE_PREFIX + [2])]
  }

  predicate SizedState(state: JobState) { FitAll(StateFields(state), StateValues(state)) }

  function EncodeState(state: JobState): seq<Byte>
    requires SizedState(state)
  {
    PutAll(StateFields(state), StateValues(state))
  }

  function DecodeState(bytes: seq<Byte>): Option<JobState> {
    if Decode(ACTIVE, bytes).Some? then Some(Active)
    else if Decode(CLOSED, bytes).Some? then Some(Closed)
    else
      var vs := Decode(GRACE, bytes);
      if vs.None? then None else
        RecordForth(GRACE, bytes);
        FittingKinds(GRACE, vs.value);
        Some(Grace(vs.value[1].n, vs.value[2].n))
  }

  lemma OneTag(bytes: seq<Byte>, tag: Byte, fs: seq<Field>)
    requires fs != [] && fs[0] == Magic(STATE_PREFIX + [tag]) && Decode(fs, bytes).Some?
    ensures |bytes| >= 7 && bytes[6] == tag
  {
  }

  lemma StateSurvives(state: JobState)
    requires SizedState(state)
    ensures DecodeState(EncodeState(state)) == Some(state)
  {
    var bytes := EncodeState(state);
    RecordBack(StateFields(state), StateValues(state));
    OneTag(bytes, match state case Active => 0 case Grace(_, _) => 1 case Closed => 2, StateFields(state));
    if Decode(ACTIVE, bytes).Some? {
      OneTag(bytes, 0, ACTIVE);
    }
    if Decode(CLOSED, bytes).Some? {
      OneTag(bytes, 2, CLOSED);
    }
  }

  lemma StateBytes(bytes: seq<Byte>)
    requires DecodeState(bytes).Some?
    ensures SizedState(DecodeState(bytes).value) && EncodeState(DecodeState(bytes).value) == bytes
  {
    var state := DecodeState(bytes).value;
    RecordForth(StateFields(state), bytes);
    FittingKinds(StateFields(state), Decode(StateFields(state), bytes).value);
    StateOnly(state, Decode(StateFields(state), bytes).value);
  }

  lemma StateOnly(state: JobState, vs: seq<Value>)
    requires Kinds(StateFields(state), vs) && (state.Grace? ==> state == Grace(vs[1].n, vs[2].n))
    ensures vs == StateValues(state)
  {
    assert Kind(StateFields(state)[0], vs[0]);
    if state.Grace? {
      assert Kind(GRACE[1], vs[1]) && Kind(GRACE[2], vs[2]);
    }
  }

  // ---- Tombstones ----

  const TOMBSTONE: seq<Field> := [Magic([77, 77, 67, 84, 3, 0]), Word(8)]

  function TombstoneValues(sequence: nat): seq<Value> { [Raw([77, 77, 67, 84, 3, 0]), Number(sequence)] }

  lemma TombstoneSurvives(sequence: nat)
    requires sequence < Pow256(8)
    ensures FitAll(TOMBSTONE, TombstoneValues(sequence))
    ensures Decode(TOMBSTONE, PutAll(TOMBSTONE, TombstoneValues(sequence))) == Some(TombstoneValues(sequence))
  {
    RecordBack(TOMBSTONE, TombstoneValues(sequence));
  }

  lemma TombstoneBytes(bytes: seq<Byte>)
    requires Decode(TOMBSTONE, bytes).Some?
    ensures var vs := Decode(TOMBSTONE, bytes).value;
            FitAll(TOMBSTONE, vs) && vs == TombstoneValues(vs[1].n) && vs[1].n < Pow256(8)
              && PutAll(TOMBSTONE, vs) == bytes
  {
    RecordForth(TOMBSTONE, bytes);
    var vs := Decode(TOMBSTONE, bytes).value;
    assert Fits(TOMBSTONE[0], vs[0]) && Fits(TOMBSTONE[1], vs[1]);
  }

  // ---- Captures ----

  /** Twenty bytes that repeat the exclusive or of two hashes. */
  function Padding(previousBlock: nat, treeRoot: nat): (r: seq<Byte>)
    ensures |r| == 20
  {
    var left, right := Codec.EncodeLittle(previousBlock, 32), Codec.EncodeLittle(treeRoot, 32);
    seq<Byte>(20, i requires 0 <= i < 20 => XorByte(left[i], right[i]))
  }

  function XorByte(a: Byte, b: Byte): Byte {
    Bits.XorBound(a, b, 8, 8);
    Bits.Xor(a, b, 8)
  }

  const CAPTURE: seq<Field> := [
    Magic([77, 77, 67, 70, 2, 0]), Name(2, 1, 100), Name(2, 12, 64), Word(8),
    Word(4), Word(8), Blob(20), Word(32), Word(32), Word(32), Blob(24), Word(32), Word(32), Word(32), Word(4), Word(4),
    Blob(32), Word(8), Tag(2), Tag(4)]

  function CaptureValues(c: Capture): (vs: seq<Value>)
    ensures |vs| == 20
  {
    var h := c.header;
    [Raw([77, 77, 67, 70, 2, 0]), Raw(c.username.bytes), Raw(c.jobId.bytes), Number(c.sequence),
     Number(h.nonce), Number(h.time), Raw(Padding(h.previousBlock, h.treeRoot)), Number(h.previousBlock),
     Number(h.treeRoot), Number(h.maskHash), Raw(h.extraNonce.bytes), Number(h.reservedRoot),
     Number(h.witnessRoot), Number(h.merkleRoot), Number(h.version), Number(h.bits),
     Raw(c.shareHash.bytes), Number(c.receivedMs), Number(if c.creditEligible then 1 else 0), Number(c.telemetry)]
  }

  function CaptureOf(vs: seq<Value>): Capture
    requires Kinds(CAPTURE, vs)
  {
    Capture(Text(vs[1].bytes), Text(vs[2].bytes), vs[3].n,
            Header(vs[4].n, vs[5].n, vs[7].n, vs[8].n, vs[9].n, Text(vs[10].bytes), vs[11].n, vs[12].n, vs[13].n,
                   vs[14].n, vs[15].n),
            Text(vs[16].bytes), vs[17].n, vs[18].n == 1, vs[19].n)
  }

  /** The padding is the one its hashes give. */
  predicate Padded(vs: seq<Value>)
    requires Kinds(CAPTURE, vs)
  {
    vs[6].bytes == Padding(vs[7].n, vs[8].n)
  }

  predicate SizedCapture(c: Capture) { FitAll(CAPTURE, CaptureValues(c)) }

  function EncodeCapture(c: Capture): seq<Byte>
    requires SizedCapture(c)
  {
    PutAll(CAPTURE, CaptureValues(c))
  }

  function DecodeCapture(bytes: seq<Byte>): (r: Option<Capture>)
    ensures r.Some? ==> Decode(CAPTURE, bytes).Some?
  {
    var vs := Decode(CAPTURE, bytes);
    if vs.None? then None else
      RecordForth(CAPTURE, bytes);
      FittingKinds(CAPTURE, vs.value);
      if Padded(vs.value) then Some(CaptureOf(vs.value)) else None
  }

  lemma CaptureKinds(c: Capture)
    ensures Kinds(CAPTURE, CaptureValues(c)) && Padded(CaptureValues(c)) && CaptureOf(CaptureValues(c)) == c
  {
  }

  lemma CaptureBack(vs: seq<Value>)
    requires Kinds(CAPTURE, vs) && Padded(vs) && vs[18].n <= 1
    ensures CaptureValues(CaptureOf(vs)) == vs
  {
    forall i | 0 <= i < 20 ensures CaptureValues(CaptureOf(vs))[i] == vs[i] {
      if i < 10 {
        CaptureLow(vs, i);
      } else {
        CaptureHigh(vs, i);
      }
    }
  }

  lemma CaptureLow(vs: seq<Value>, i: nat)
    requires Kinds(CAPTURE, vs) && Padded(vs) && i < 10
    ensures CaptureValues(CaptureOf(vs))[i] == vs[i]
  {
    assert Kind(CAPTURE[i], vs[i]);
  }

  lemma CaptureHigh(vs: seq<Value>, i: nat)
    requires Kinds(CAPTURE, vs) && vs[18].n <= 1 && 10 <= i < 20
    ensures CaptureValues(CaptureOf(vs))[i] == vs[i]
  {
    assert Kind(CAPTURE[i], vs[i]);
  }

  /** A stored capture is read back unchanged. */
  lemma CaptureSurvives(c: Capture)
    requires SizedCapture(c)
    ensures DecodeCapture(EncodeCapture(c)) == Some(c)
  {
    RecordBack(CAPTURE, CaptureValues(c));
    CaptureKinds(c);
  }

  /** Only the bytes of a capture decode to it; wrong padding is refused. */
  lemma CaptureBytes(bytes: seq<Byte>)
    requires DecodeCapture(bytes).Some?
    ensures SizedCapture(DecodeCapture(bytes).value) && EncodeCapture(DecodeCapture(bytes).value) == bytes
  {
    var vs := Decode(CAPTURE, bytes).value;
    RecordForth(CAPTURE, bytes);
    FittingKinds(CAPTURE, vs);
    assert Fits(CAPTURE[18], vs[18]);
    CaptureBack(vs);
  }

  // ---- What the gateway stores has a byte form ----

  /** What the type of a field alone guarantees: widths and UTF-8, but no lengths. */
  predicate Typed(f: Field, v: Value) {
    match f
    case Word(w) => v.Number? && v.n < Pow256(w)
    case Tag(limit) => v.Number? && v.n < limit && v.n < 256
    case Blob(_) => v.Raw?
    case Magic(text) => v == Raw(text)
    case Name(_, _, _) => v.Raw? && PublicationIntent.Utf8(v.bytes)
    case Words(_, _, each) => v.Numbers? && AllWithin(v.ns, Pow256(each))
  }

  predicate TypedAll(fs: seq<Field>, vs: seq<Value>) {
    |vs| == |fs| && forall i :: 0 <= i < |fs| ==> Typed(fs[i], vs[i])
  }

  /** The lengths and counts of a field, which the gateway checks. */
  predicate Measured(f: Field, v: Value) {
    match f
    case Blob(n) => v.Raw? && |v.bytes| == n
    case Name(w, lo, hi) => v.Raw? && lo <= |v.bytes| <= hi && |v.bytes| < Pow256(w)
    case Words(w, hi, _) => v.Numbers? && |v.ns| <= hi && |v.ns| < Pow256(w)
    case _ => true
  }

  lemma TypedFits(fs: seq<Field>, vs: seq<Value>)
    requires TypedAll(fs, vs) && forall i :: 0 <= i < |fs| ==> Measured(fs[i], vs[i])
    ensures FitAll(fs, vs)
  {
    forall i | 0 <= i < |fs| ensures Fits(fs[i], vs[i]) {
      assert Typed(fs[i], vs[i]) && Measured(fs[i], vs[i]);
    }
  }

  lemma SmallFits(n: nat)
    ensures n < 0x100 ==> n < Pow256(2) && n < Pow256(8)
    ensures n <= MAX_JOB_TRANSACTIONS ==> n < Pow256(8)
  {
    assert Pow256(1) == 256 && Pow256(2) == 65536 && Pow256(3) == 16777216;
    Pow256Monotone(3, 8);
    Pow256Monotone(2, 8);
  }

  lemma JobMeasured(job: Job, i: nat)
    requires |job.id.bytes| <= 64 && GatewayRecords.TargetsSized(job) && i < 20
    requires |job.transactions.hashes| <= MAX_JOB_TRANSACTIONS
    ensures Measured(JOB[i], JobValues(job)[i])
  {
    SmallFits(|job.id.bytes|);
    SmallFits(|job.transactions.hashes|);
  }

  /** Every job the gateway accepts has a byte form. */
  lemma JobFits(job: Job, enforce: bool)
    requires GatewayRecords.ValidJob(job, enforce) && TypedAll(JOB, JobValues(job))
    ensures SizedJob(job)
  {
    forall i | 0 <= i < 20 ensures Measured(JOB[i], JobValues(job)[i]) {
      JobMeasured(job, i);
    }
    TypedFits(JOB, JobValues(job));
  }

  lemma CaptureMeasured(c: Capture, i: nat)
    requires GatewayRecords.Shaped(c) && 0 < |c.username.bytes| <= 100 && 12 <= |c.jobId.bytes| <= 64 && i < 20
    ensures Measured(CAPTURE[i], CaptureValues(c)[i])
  {
    SmallFits(|c.username.bytes|);
    SmallFits(|c.jobId.bytes|);
  }

  /** Every capture the gateway accepts has a byte form. */
  lemma CaptureFits(c: Capture, job: Job, shareHash: GatewayRecords.ShareHash)
    requires GatewayRecords.CaptureMatches(c, job, shareHash) && GatewayRecords.ValidId(c.jobId)
    requires TypedAll(CAPTURE, CaptureValues(c))
    ensures SizedCapture(c)
  {
    forall i | 0 <= i < 20 ensures Measured(CAPTURE[i], CaptureValues(c)[i]) {
      CaptureMeasured(c, i);
    }
    TypedFits(CAPTURE, CaptureValues(c));
  }

  /** The records of a store as bytes. */
  datatype Image = Image(
    jobs: map<nat, seq<Byte>>, states: map<nat, seq<Byte>>,
    captures: map<Key, seq<Byte>>, tombstones: map<Key, seq<Byte>>)

  predicate JobsSized(jobs: map<nat, Job>) { forall q :: q in jobs ==> SizedJob(jobs[q]) }
  predicate StatesSized(states: map<nat, JobState>) { forall q :: q in states ==> SizedState(states[q]) }
  predicate CapturesSized(captures: map<Key, Capture>) { forall k :: k in captures ==> SizedCapture(captures[k]) }
  predicate TombstonesSized(tombstones: map<Key, nat>) { forall k :: k in tombstones ==> tombstones[k] < Pow256(8) }

  predicate Sized(s: Store) {
    JobsSized(s.jobs) && StatesSized(s.states) && CapturesSized(s.captures) && TombstonesSized(s.tombstones)
  }

  function TombstoneRecord(sequence: nat): seq<Byte>
    requires sequence < Pow256(8)
  {
    TombstoneSurvives(sequence);
    PutAll(TOMBSTONE, TombstoneValues(sequence))
  }

  function JobRecords(jobs: map<nat, Job>): map<nat, seq<Byte>>
    requires JobsSized(jobs)
  {
    map q | q in jobs :: EncodeJob(jobs[q])
  }

  function StateRecords(states: map<nat, JobState>): map<nat, seq<Byte>>
    requires StatesSized(states)
  {
    map q | q in states :: EncodeState(states[q])
  }

  function CaptureRecords(captures: map<Key, Capture>): map<Key, seq<Byte>>
    requires CapturesSized(captures)
  {
    map k | k in captures :: EncodeCapture(captures[k])
  }

  function TombstoneRecords(tombstones: map<Key, nat>): map<Key, seq<Byte>>
    requires TombstonesSized(tombstones)
  {
    map k | k in tombstones :: TombstoneRecord(tombstones[k])
  }

  function Written(s: Store): Image
    requires Sized(s)
  {
    Image(JobRecords(s.jobs), StateRecords(s.states), CaptureRecords(s.captures), TombstoneRecords(s.tombstones))
  }

  predicate ReadsJobs(records: map<nat, seq<Byte>>, jobs: map<nat, Job>) {
    records.Keys == jobs.Keys && forall q :: q in jobs ==> DecodeJob(records[q]) == Some(jobs[q])
  }

  predicate ReadsStates(records: map<nat, seq<Byte>>, states: map<nat, JobState>) {
    records.Keys == states.Keys && forall q :: q in states ==> DecodeState(records[q]) == Some(states[q])
  }

  predicate ReadsCaptures(records: map<Key, seq<Byte>>, captures: map<Key, Capture>) {
    records.Keys == captures.Keys && forall k :: k in captures ==> DecodeCapture(records[k]) == Some(captures[k])
  }

  predicate ReadsTombstones(records: map<Key, seq<Byte>>, tombstones: map<Key, nat>) {
    && records.Keys == tombstones.Keys
    && forall k :: k in tombstones ==> Decode(TOMBSTONE, records[k]) == Some(TombstoneValues(tombstones[k]))
  }

  /** Every record of the image decodes to the record of the store. */
  predicate ReadsAs(image: Image, s: Store) {
    && ReadsJobs(image.jobs, s.jobs) && ReadsStates(image.states, s.states)
    && ReadsCaptures(image.captures, s.captures) && ReadsTombstones(image.tombstones, s.tombstones)
  }

  lemma JobsRead(jobs: map<nat, Job>)
    requires JobsSized(jobs)
    ensures ReadsJobs(JobRecords(jobs), jobs)
  {
    forall q | q in jobs ensures DecodeJob(JobRecords(jobs)[q]) == Some(jobs[q]) {
      JobSurvives(jobs[q]);
    }
  }

  lemma StatesRead(states: map<nat, JobState>)
    requires StatesSized(states)
    ensures ReadsStates(StateRecords(states), states)
  {
    forall q | q in states ensures DecodeState(StateRecords(states)[q]) == Some(states[q]) {
      StateSurvives(states[q]);
    }
  }

  lemma CapturesRead(captures: map<Key, Capture>)
    requires CapturesSized(captures)
    ensures ReadsCaptures(CaptureRecords(captures), captures)
  {
    forall k | k in captures ensures DecodeCapture(CaptureRecords(captures)[k]) == Some(captures[k]) {
      CaptureSurvives(captures[k]);
    }
  }

  lemma TombstonesRead(tombstones: map<Key, nat>)
    requires TombstonesSized(tombstones)
    ensures ReadsTombstones(TombstoneRecords(tombstones), tombstones)
  {
    forall k | k in tombstones
      ensures Decode(TOMBSTONE, TombstoneRecords(tombstones)[k]) == Some(TombstoneValues(tombstones[k]))
    {
      TombstoneSurvives(tombstones[k]);
    }
  }

  /** A store written to disk reads back as itself. */
  lemma WrittenReads(s: Store)
    requires Sized(s)
    ensures ReadsAs(Written(s), s)
  {
    JobsRead(s.jobs);
    StatesRead(s.states);
    CapturesRead(s.captures);
    TombstonesRead(s.tombstones);
  }

  predicate TypedState(state: JobState) {
    state.Grace? ==> state.creditCutoffMs < Pow256(8) && state.submissionEndMs < Pow256(8)
  }

  /** What the types of the program alone guarantee of a store. */
  predicate TypedStore(s: Store) {
    && (forall q :: q in s.jobs ==> TypedAll(JOB, JobValues(s.jobs[q])))
    && (forall q :: q in s.states ==> TypedState(s.states[q]))
    && (forall k :: k in s.captures ==> TypedAll(CAPTURE, CaptureValues(s.captures[k])))
    && TombstonesSized(s.tombstones)
  }

  lemma SoundJobsFit(s: Store, rules: Rules, enforce: bool, shareHash: GatewayRecords.ShareHash)
    requires Sound(s, rules) && GatewayRecords.Governs(rules, enforce, shareHash) && TypedStore(s)
    ensures JobsSized(s.jobs)
  {
    forall q | q in s.jobs ensures SizedJob(s.jobs[q]) {
      assert JobOk(q, s.jobs[q], s.states[q], rules) && rules.job(s.jobs[q]);
      JobFits(s.jobs[q], enforce);
    }
  }

  lemma SoundCapturesFit(s: Store, rules: Rules, enforce: bool, shareHash: GatewayRecords.ShareHash)
    requires Sound(s, rules) && GatewayRecords.Governs(rules, enforce, shareHash) && TypedStore(s)
    ensures CapturesSized(s.captures)
  {
    forall k | k in s.captures ensures SizedCapture(s.captures[k]) {
      var c := s.captures[k];
      assert CaptureOk(k, c, s.jobs, rules);
      var job := s.jobs[c.sequence];
      assert JobOk(c.sequence, job, s.states[c.sequence], rules) && rules.job(job) && rules.capture(c, job);
      CaptureFits(c, job, shareHash);
    }
  }

  lemma SoundStatesFit(states: map<nat, JobState>)
    requires forall q :: q in states ==> TypedState(states[q])
    ensures StatesSized(states)
  {
    forall q | q in states ensures SizedState(states[q]) {
      assert TypedState(states[q]);
    }
  }

  /** Everything the gateway can have stored has a byte form. */
  lemma SoundFits(s: Store, rules: Rules, enforce: bool, shareHash: GatewayRecords.ShareHash)
    requires Sound(s, rules) && GatewayRecords.Governs(rules, enforce, shareHash) && TypedStore(s)
    ensures Sized(s)
  {
    SoundJobsFit(s, rules, enforce, shareHash);
    SoundStatesFit(s.states);
    SoundCapturesFit(s, rules, enforce, shareHash);
  }

  /** After a crash at any write of any run, the bytes on disk decode to exactly the store that was written. */
  lemma CrashReads(
      stores: seq<Store>, ws: seq<Write>, k: nat, rules: Rules, enforce: bool, shareHash: GatewayRecords.ShareHash)
    requires GatewayRun.Run(stores, ws, rules) && stores[0] == EMPTY && k < |stores|
    requires GatewayRecords.Governs(rules, enforce, shareHash) && TypedStore(stores[k])
    ensures Sized(stores[k]) && ReadsAs(Written(stores[k]), stores[k])
  {
    GatewayRun.EmptySound(rules);
    GatewayRun.RunSound(stores, ws, k, rules);
    SoundFits(stores[k], rules, enforce, shareHash);
    WrittenReads(stores[k]);
  }
}
