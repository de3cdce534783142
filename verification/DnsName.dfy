/**
 * Domain names on the wire with compression (Sources/DNS/DNSName.swift; section 4.1.4 of RFC 1035).
 * A string is the sequence of its UTF-8 bytes.
 */
module DnsName {
  import opened Base

  const DOT: Byte := 0x2E
  const MAX_LABEL := 63
  const MAX_NAME := 255
  const MAX_JUMPS := 128
  const POINTER_LIMIT := 0x4000

  type Label = Bytes

  datatype DnsError = UnexpectedEnd | BadPointer | TooManyJumps | LabelTooLong

  // ---- Names and labels ----

  /** The name without its trailing dot. */
  function Cleaned(name: Bytes): Bytes {
    if name != [] && name[|name| - 1] == DOT then name[..|name| - 1] else name
  }

  /** Up to the first dot. */
  function FirstLabel(s: Bytes): (l: Label)
    ensures |l| <= |s| && DOT !in l
  {
    if s == [] || s[0] == DOT then [] else [s[0]] + FirstLabel(s[1..])
  }

  /** The labels between the dots, empty ones included. */
  function Split(s: Bytes): (labels: seq<Label>)
    ensures |labels| > 0 && forall l :: l in labels ==> DOT !in l
    decreases |s|
  {
    var l := FirstLabel(s);
    if |l| == |s| then [l] else [l] + Split(s[|l| + 1..])
  }

  /** Every label followed by a dot. */
  function Join(labels: seq<Label>): Bytes {
    if labels == [] then [] else labels[0] + [DOT] + Join(labels[1..])
  }

  lemma {:induction false} FirstLabelMeaning(s: Bytes)
    ensures s[..|FirstLabel(s)|] == FirstLabel(s)
    ensures |FirstLabel(s)| < |s| ==> s[|FirstLabel(s)|] == DOT
  {
    if s != [] && s[0] != DOT {
      FirstLabelMeaning(s[1..]);
    }
  }

  /** Joining the labels of a string gives the string with a final dot. */
  lemma {:induction false} JoinSplit(s: Bytes)
    ensures Join(Split(s)) == s + [DOT]
    decreases |s|
  {
    var l := FirstLabel(s);
    FirstLabelMeaning(s);
    if |l| < |s| {
      var rest := s[|l| + 1..];
      JoinSplit(rest);
      assert ([l] + Split(rest))[1..] == Split(rest);
      assert s == l + [DOT] + rest;
      assert l + [DOT] + (rest + [DOT]) == s + [DOT];
    } else {
      var none: seq<Label> := [];
      assert [l][1..] == none;
      assert l + [DOT] + Join(none) == s + [DOT];
    }
  }

  lemma {:induction false} FirstOfJoined(l: Label, rest: Bytes)
    requires DOT !in l
    ensures FirstLabel(l + [DOT] + rest) == l
  {
    var s := l + [DOT] + rest;
    if l != [] {
      FirstOfJoined(l[1..], rest);
      assert s[1..] == l[1..] + [DOT] + rest;
    }
  }

  predicate DotFree(labels: seq<Label>) {
    forall l :: l in labels ==> DOT !in l
  }

  /** Different lists of labels join to different strings. */
  lemma {:induction false} JoinInjective(a: seq<Label>, b: seq<Label>)
    requires DotFree(a) && DotFree(b) && Join(a) == Join(b)
    ensures a == b
  {
    if a == [] || b == [] {
      assert |Join(a)| == 0;
    } else {
      FirstOfJoined(a[0], Join(a[1..]));
      FirstOfJoined(b[0], Join(b[1..]));
      assert Join(a)[|a[0]| + 1..] == Join(a[1..]);
      assert Join(b)[|b[0]| + 1..] == Join(b[1..]);
      JoinInjective(a[1..], b[1..]);
    }
  }

  /** Bytes a list of labels takes uncompressed, without the terminator. */
  function WireLength(labels: seq<Label>): nat {
    if labels == [] then 0 else |labels[0]| + 1 + WireLength(labels[1..])
  }

  /** Non-empty labels of at most 63 bytes, 255 bytes in all. */
  predicate LegalLabels(labels: seq<Label>) {
    && (forall l :: l in labels ==> 0 < |l| <= MAX_LABEL)
    && WireLength(labels) + 1 <= MAX_NAME
  }

  predicate LegalName(name: Bytes) {
    Cleaned(name) == [] || LegalLabels(Split(Cleaned(name)))
  }

  function LabelsOf(name: Bytes): seq<Label> {
    if Cleaned(name) == [] then [] else Split(Cleaned(name))
  }

  /** How a decoded name is written. */
  function Shown(labels: seq<Label>): Bytes {
    if labels == [] then [DOT] else Join(labels)
  }

  lemma {:induction false} LabelCount(labels: seq<Label>)
    requires forall l :: l in labels ==> 0 < |l|
    ensures 2 * |labels| <= WireLength(labels)
  {
    if labels != [] {
      LabelCount(labels[1..]);
    }
  }

  // ---- What bytes spell ----

  predicate LabelAt(msg: Bytes, off: nat, l: Label) {
    && 0 < |l| <= MAX_LABEL && off + 1 + |l| <= |msg|
    && msg[off] == |l| && msg[off + 1..off + 1 + |l|] == l
  }

  predicate PointerAt(msg: Bytes, off: nat, target: nat) {
    && off + 2 <= |msg| && target < POINTER_LIMIT && target < |msg|
    && msg[off] == 0xC0 + target / 256 && msg[off + 1] == target % 256
  }

  /** At `off` stands a literal label, and after it the rest of the labels. */
  ghost predicate StartsAt(msg: Bytes, off: nat, labels: seq<Label>)
    decreases |labels|, 0
  {
    labels != [] && LabelAt(msg, off, labels[0]) && SpellsAt(msg, off + 1 + |labels[0]|, labels[1..])
  }

  /** The bytes at `off` spell the labels: a terminator, a label, or a pointer to a literal label. */
  ghost predicate SpellsAt(msg: Bytes, off: nat, labels: seq<Label>)
    decreases |labels|, 1
  {
    || (labels == [] && off < |msg| && msg[off] == 0)
    || StartsAt(msg, off, labels)
    || exists target: nat :: PointerAt(msg, off, target) && StartsAt(msg, target, labels)
  }

  lemma {:induction false} SpellsLonger(msg: Bytes, more: Bytes, off: nat, labels: seq<Label>)
    requires SpellsAt(msg, off, labels)
    ensures SpellsAt(msg + more, off, labels)
    decreases |labels|, 1
  {
    if StartsAt(msg, off, labels) {
      StartsLonger(msg, more, off, labels);
    } else if labels == [] && off < |msg| && msg[off] == 0 {
    } else {
      var target: nat :| PointerAt(msg, off, target) && StartsAt(msg, target, labels);
      StartsLonger(msg, more, target, labels);
      assert PointerAt(msg + more, off, target);
    }
  }

  /** Bytes appended later never change what is spelled. */
  lemma {:induction false} StartsLonger(msg: Bytes, more: Bytes, off: nat, labels: seq<Label>)
    requires StartsAt(msg, off, labels)
    ensures StartsAt(msg + more, off, labels)
    decreases |labels|, 0
  {
    var l := labels[0];
    assert (msg + more)[off + 1..off + 1 + |l|] == msg[off + 1..off + 1 + |l|];
    SpellsLonger(msg, more, off + 1 + |l|, labels[1..]);
  }

  // ---- Decoding ----

  datatype Parsed = Parsed(labels: seq<Label>, next: nat)

  /** The decoder from an offset on, after `jumps` jumps: labels, and the offset past the name. */
  function Parse(msg: Bytes, off: nat, jumps: nat): (r: Result<Parsed, DnsError>)
    requires off <= |msg| && jumps < MAX_JUMPS
    ensures r.Ok? ==> r.value.next <= |msg|
    decreases MAX_JUMPS - jumps, |msg| - off
  {
    if off == |msg| then Err(UnexpectedEnd)
    else
      var len := msg[off];
      if len == 0 then Ok(Parsed([], off + 1))
      else if len >= 0xC0 then
        if off + 1 == |msg| then Err(UnexpectedEnd)
        else
          var target := (len - 0xC0) * 256 + msg[off + 1];
          if target >= |msg| then Err(BadPointer)
          else if jumps + 1 >= MAX_JUMPS then Err(TooManyJumps)
          else
            var rest :- Parse(msg, target, jumps + 1);
            Ok(Parsed(rest.labels, off + 2))
      else if len > MAX_LABEL then Err(LabelTooLong)
      else if off + 1 + len > |msg| then Err(UnexpectedEnd)
      else
        var rest :- Parse(msg, off + 1 + len, jumps);
        Ok(Parsed([msg[off + 1..off + 1 + len]] + rest.labels, rest.next))
  }

  class BufferReader {
    var data: Bytes
    var offset: nat

    constructor (data: Bytes)
      ensures this.data == data && offset == 0
    {
      this.data, offset := data, 0;
    }

    predicate Valid()
      reads this
    {
      offset <= |data|
    }

    method ReadByte() returns (r: Option<Byte>)
      requires Valid()
      modifies `offset
      ensures Valid()
      ensures old(offset) < |data| ==> r == Some(data[old(offset)]) && offset == old(offset) + 1
      ensures old(offset) == |data| ==> r == None && offset == old(offset)
    {
      if offset == |data| {
        return None;
      }
      r := Some(data[offset]);
      offset := offset + 1;
    }

    method ReadBytes(n: nat) returns (r: Option<Bytes>)
      requires Valid()
      modifies `offset
      ensures Valid()
      ensures old(offset) + n <= |data| ==> r == Some(data[old(offset)..old(offset) + n]) && offset == old(offset) + n
      ensures old(offset) + n > |data| ==> r == None && offset == old(offset)
    {
      if offset + n > |data| {
        return None;
      }
      r := Some(data[offset..offset + n]);
      offset := offset + n;
    }
  }

  /** What remains to be parsed, put after the labels already read. */
  function Prepend(labels: seq<Label>, rest: Result<Parsed, DnsError>, next: Option<nat>): Result<Parsed, DnsError> {
    match rest
    case Err(e) => Err(e)
    case Ok(p) => Ok(Parsed(labels + p.labels, if next.Some? then next.value else p.next))
  }

  /** Reads a name at the reader's position in a message and leaves the reader just past it. */
  method Decode(reader: BufferReader) returns (r: Result<Bytes, DnsError>)
    requires reader.Valid()
    modifies reader
    ensures reader.Valid() && reader.data == old(reader.data)
    ensures var p := Parse(old(reader.data), old(reader.offset), 0);
      match p
      case Err(e) => r == Err(e)
      case Ok(parsed) => r == Ok(Shown(parsed.labels)) && reader.offset == parsed.next
  {
    hide Parse, Prepend;
    var message := reader.data;
    var labels: seq<Label>, jumps, saved: Option<nat> := [], 0, None;
    ghost var whole := Parse(message, reader.offset, 0);
    PrependNothing(whole);
    while true
      invariant reader.Valid() && reader.data == message && 0 <= jumps < MAX_JUMPS
      invariant saved.Some? ==> saved.value <= |message|
      invariant whole == Prepend(labels, Parse(message, reader.offset, jumps), saved)
      decreases MAX_JUMPS - jumps, |message| - reader.offset
    {
      ParseCases(message, reader.offset, jumps, labels, saved);
      var head := reader.ReadByte();
      if head == None {
        return Err(UnexpectedEnd);
      }
      var len := head.value;
      if len == 0 {
        break;
      }
      if len >= 0xC0 {
        var low := reader.ReadByte();
        if low == None {
          return Err(UnexpectedEnd);
        }
        var pointer := (len - 0xC0) * 256 + low.value;
        if pointer >= |message| {
          return Err(BadPointer);
        }
        if saved == None {
          saved := Some(reader.offset);
        }
        jumps := jumps + 1;
        if jumps >= MAX_JUMPS {
          return Err(TooManyJumps);
        }
        reader.offset := pointer;
      } else {
        if len > MAX_LABEL {
          return Err(LabelTooLong);
        }
        var bytes := reader.ReadBytes(len);
        if bytes == None {
          return Err(UnexpectedEnd);
        }
        labels := labels + [bytes.value];
      }
    }
    if saved.Some? {
      reader.offset := saved.value;
    }
    return Ok(Shown(labels));
  }

  lemma {:induction false} PrependNothing(rest: Result<Parsed, DnsError>)
    ensures Prepend([], rest, None) == rest
  {
    if rest.Ok? {
      assert [] + rest.value.labels == rest.value.labels;
    }
  }

  /** One step of the decoder, seen from the labels and the saved offset it has so far. */
  lemma {:induction false} ParseCases(msg: Bytes, off: nat, jumps: nat, labels: seq<Label>, saved: Option<nat>)
    requires off <= |msg| && jumps < MAX_JUMPS
    ensures var whole := Prepend(labels, Parse(msg, off, jumps), saved);
      if off == |msg| then whole == Err(UnexpectedEnd)
      else
        var len: int := msg[off];
        if len == 0 then whole == Ok(Parsed(labels, if saved.Some? then saved.value else off + 1))
        else if len >= 0xC0 then
          if off + 1 == |msg| then whole == Err(UnexpectedEnd)
          else
            var target := (len - 0xC0) * 256 + msg[off + 1];
            if target >= |msg| then whole == Err(BadPointer)
            else if jumps + 1 >= MAX_JUMPS then whole == Err(TooManyJumps)
            else whole == Prepend(labels, Parse(msg, target, jumps + 1), if saved.Some? then saved else Some(off + 2))
        else if len > MAX_LABEL then whole == Err(LabelTooLong)
        else if off + 1 + len > |msg| then whole == Err(UnexpectedEnd)
        else whole == Prepend(labels + [msg[off + 1..off + 1 + len]], Parse(msg, off + 1 + len, jumps), saved)
  {
    if off < |msg| && 0 < msg[off] <= MAX_LABEL && off + 1 + msg[off] <= |msg| {
      PrependMore(labels, msg[off + 1..off + 1 + msg[off]], Parse(msg, off + 1 + msg[off], jumps), saved);
    }
    assert labels + [] == labels;
  }

  lemma {:induction false} PrependMore(labels: seq<Label>, l: Label, rest: Result<Parsed, DnsError>, next: Option<nat>)
    ensures rest.Ok? ==>
      Prepend(labels, Ok(Parsed([l] + rest.value.labels, rest.value.next)), next) == Prepend(labels + [l], rest, next)
    ensures rest.Err? ==> Prepend(labels + [l], rest, next) == rest
  {
    if rest.Ok? {
      assert labels + ([l] + rest.value.labels) == labels + [l] + rest.value.labels;
    }
  }

  /** What is spelled is decoded; there is a label for every jump, so the limit is out of reach. */
  lemma {:induction false} SpelledIsParsed(msg: Bytes, off: nat, labels: seq<Label>, jumps: nat)
    requires SpellsAt(msg, off, labels) && off <= |msg| && jumps + |labels| < MAX_JUMPS
    ensures Parse(msg, off, jumps).Ok? && Parse(msg, off, jumps).value.labels == labels
    decreases |labels|, 1
  {
    if labels == [] && off < |msg| && msg[off] == 0 {
    } else if StartsAt(msg, off, labels) {
      StartIsParsed(msg, off, labels, jumps);
    } else {
      var target: nat :| PointerAt(msg, off, target) && StartsAt(msg, target, labels);
      StartIsParsed(msg, target, labels, jumps + 1);
      var head: int := msg[off];
      assert target == (head - 0xC0) * 256 + msg[off + 1];
    }
  }

  lemma {:induction false} StartIsParsed(msg: Bytes, off: nat, labels: seq<Label>, jumps: nat)
    requires StartsAt(msg, off, labels) && jumps + |labels| <= MAX_JUMPS && jumps < MAX_JUMPS
    ensures off < |msg| && Parse(msg, off, jumps).Ok? && Parse(msg, off, jumps).value.labels == labels
    decreases |labels|, 0
  {
    hide Parse, SpellsAt;
    SpelledIsParsed(msg, off + 1 + |labels[0]|, labels[1..], jumps);
    LabelParsed(msg, off, labels[0], jumps);
    assert labels == [labels[0]] + labels[1..];
  }

  lemma {:induction false} LabelParsed(msg: Bytes, off: nat, l: Label, jumps: nat)
    requires LabelAt(msg, off, l) && jumps < MAX_JUMPS
    ensures var rest := Parse(msg, off + 1 + |l|, jumps);
      rest.Ok? ==> Parse(msg, off, jumps) == Ok(Parsed([l] + rest.value.labels, rest.value.next))
  {
  }

  // ---- Writing ----

  type Compression = map<Bytes, nat>

  class BufferWriter {
    var data: Bytes

    constructor ()
      ensures data == []
    {
      data := [];
    }

    method WriteByte(b: Byte)
      modifies `data
      ensures data == old(data) + [b]
    {
      data := data + [b];
    }

    method WriteBytes(bytes: Bytes)
      modifies `data
      ensures data == old(data) + bytes
    {
      data := data + bytes;
    }
  }

  /** The first `n` labels on the wire. */
  function Wire(labels: seq<Label>, n: nat): Bytes
    requires n <= |labels| && forall k :: 0 <= k < n ==> |labels[k]| <= MAX_LABEL
  {
    if n == 0 then [] else Wire(labels, n - 1) + [|labels[n - 1]|] + labels[n - 1]
  }

  /** The compression map with the first `n` suffixes of a name written at `base` recorded. */
  function Recorded(compression: Compression, labels: seq<Label>, base: nat, n: nat): Compression
    requires n <= |labels| && forall k :: 0 <= k < n ==> |labels[k]| <= MAX_LABEL
  {
    if n == 0 then compression
    else Recorded(compression, labels, base, n - 1)[Join(labels[n - 1..]) := base + |Wire(labels, n - 1)|]
  }

  /** Every entry a pointer can reach leads to bytes that start with a label and spell the suffix. */
  ghost predicate Sound(msg: Bytes, compression: Compression) {
    forall key :: key in compression && compression[key] < POINTER_LIMIT ==> Reaches(msg, compression[key], key)
  }

  ghost predicate Reaches(msg: Bytes, off: nat, key: Bytes) {
    exists labels: seq<Label> :: labels != [] && DotFree(labels) && Join(labels) == key && StartsAt(msg, off, labels)
  }

  /** The map leads from the suffix at label `k` to a place a pointer can name. */
  predicate Known(compression: Compression, labels: seq<Label>, k: nat)
    requires k <= |labels|
  {
    Join(labels[k..]) in compression && compression[Join(labels[k..])] < POINTER_LIMIT
  }

  /** The first `n` labels are written out, then a pointer or the terminator; and each start is recorded. */
  predicate CutAt(was: Bytes, now: Bytes, compression: Compression, updated: Compression, labels: seq<Label>, n: nat) {
    && n <= |labels| && (forall k :: 0 <= k < n ==> |labels[k]| <= MAX_LABEL && !Known(compression, labels, k))
    && (n < |labels| ==>
          && Known(compression, labels, n)
          && now == was + Wire(labels, n) + PointerBytes(compression[Join(labels[n..])]))
    && (n == |labels| ==> now == was + Wire(labels, n) + [0])
    && updated == Recorded(compression, labels, |was|, n)
  }

  /** Every suffix written out is in the map at its own place. */
  lemma {:induction false} RecordedAll(compression: Compression, labels: seq<Label>, base: nat, n: nat, k: nat)
    requires k < n <= |labels| && DotFree(labels) && forall j :: 0 <= j < n ==> |labels[j]| <= MAX_LABEL
    ensures var after := Recorded(compression, labels, base, n);
      Join(labels[k..]) in after && after[Join(labels[k..])] == base + |Wire(labels, k)|
  {
    hide Join, Wire;
    if k < n - 1 {
      RecordedAll(compression, labels, base, n - 1, k);
      if Join(labels[n - 1..]) == Join(labels[k..]) {
        JoinInjective(labels[n - 1..], labels[k..]);
      }
    }
  }

  /** A name written before 2^14 bytes take two bytes from then on, and so does each of its suffixes below that. */
  lemma {:induction false} SecondTime(was: Bytes, now: Bytes, compression: Compression, updated: Compression, labels: seq<Label>,
      n: nat, k: nat, more: Bytes, after: Bytes, last: Compression, m: nat)
    requires DotFree(labels) && CutAt(was, now, compression, updated, labels, n)
    requires k < n && |was| + |Wire(labels, k)| < POINTER_LIMIT
    requires CutAt(more, after, updated, last, labels[k..], m)
    ensures m == 0 && |after| == |more| + 2
  {
    hide Join, Recorded;
    RecordedAll(compression, labels, |was|, n, k);
    assert labels[k..][0..] == labels[k..];
    assert Known(updated, labels[k..], 0);
  }

  /** What was written before stays as it was; a name too long for a label is refused. */
  method Write(name: Bytes, writer: BufferWriter, compression: Compression)
    returns (r: Outcome<DnsError>, updated: Compression)
    modifies writer
    ensures old(writer.data) <= writer.data
    ensures r.Throw? ==> exists l :: l in LabelsOf(name) && |l| > MAX_LABEL
    ensures LegalName(name) && Sound(old(writer.data), compression) ==>
      r.Pass? && Written(old(writer.data), writer.data, LabelsOf(name)) && Sound(writer.data, updated)
    ensures r.Pass? ==> exists n :: CutAt(old(writer.data), writer.data, compression, updated, LabelsOf(name), n)
  {
    hide *;
    NameParts(name);
    Limits();
    updated := compression;
    var cleaned := Cleaned(name);
    if cleaned == [] {
      ghost var was := writer.data;
      writer.WriteByte(0);
      WrittenRoot(was);
      if Sound(was, compression) {
        SoundLonger(was, [0], compression);
      }
      RootCut(was, compression);
      return Pass, updated;
    }
    var labels := Split(cleaned);
    ghost var was, base := writer.data, |writer.data|;
    LegalLengths(labels);
    NothingWritten(compression, labels, base);
    var i := 0;
    while i < |labels|
      invariant 0 <= i <= |labels| && forall k :: 0 <= k < i ==> |labels[k]| <= MAX_LABEL
      invariant writer.data == was + Wire(labels, i) && updated == Recorded(compression, labels, base, i)
      invariant forall k :: 0 <= k < i ==> !Known(compression, labels, k)
    {
      var suffix := Join(labels[i..]);
      NotRecorded(compression, labels, base, i);
      KnownHere(compression, labels, i);
      if suffix in updated && updated[suffix] < POINTER_LIMIT {
        var offset := updated[suffix];
        writer.WriteByte(0xC0 + offset / 256);
        writer.WriteByte(offset % 256);
        PointerIs(offset);
        assert writer.data == was + Wire(labels, i) + PointerBytes(offset);
        if LegalLabels(labels) && Sound(was, compression) {
          FinishWithPointer(was, compression, labels, i, offset);
        }
        PointerCut(was, compression, labels, i);
        assert CutAt(was, writer.data, compression, updated, LabelsOf(name), i);
        return Pass, updated;
      }
      updated := updated[suffix := |writer.data|];
      if |labels[i]| > MAX_LABEL {
        assert labels[i] in labels;
        return Throw(LabelTooLong), updated;
      }
      WireNext(compression, labels, base, i);
      writer.WriteByte(|labels[i]|);
      writer.WriteBytes(labels[i]);
      assert writer.data == was + Wire(labels, i + 1);
      i := i + 1;
    }
    writer.WriteByte(0);
    if LegalLabels(labels) && Sound(was, compression) {
      FinishWithTerminator(was, compression, labels);
    }
    TerminatorCut(was, compression, labels);
    assert CutAt(was, writer.data, compression, updated, LabelsOf(name), |labels|);
    return Pass, updated;
  }

  lemma {:induction false} NameParts(name: Bytes)
    ensures LabelsOf(name) == if Cleaned(name) == [] then [] else Split(Cleaned(name))
    ensures LegalName(name) <==> Cleaned(name) == [] || LegalLabels(Split(Cleaned(name)))
    ensures DotFree(LabelsOf(name))
  {
    hide Cleaned, Split, LegalLabels;
  }

  lemma {:induction false} Limits()
    ensures POINTER_LIMIT == 0x4000 && MAX_LABEL == 63
  {
  }

  lemma {:induction false} PointerIs(offset: nat)
    requires offset < POINTER_LIMIT
    ensures PointerBytes(offset) == [0xC0 + offset / 256, offset % 256]
  {
  }

  lemma {:induction false} KnownHere(compression: Compression, labels: seq<Label>, i: nat)
    requires i < |labels|
    ensures Known(compression, labels, i) <==>
      Join(labels[i..]) in compression && compression[Join(labels[i..])] < POINTER_LIMIT
  {
  }

  lemma {:induction false} RootCut(was: Bytes, compression: Compression)
    ensures CutAt(was, was + [0], compression, compression, [], 0)
  {
    assert was + [] + [0] == was + [0];
  }

  lemma {:induction false} PointerCut(was: Bytes, compression: Compression, labels: seq<Label>, i: nat)
    requires i < |labels| && Known(compression, labels, i)
    requires forall k :: 0 <= k < i ==> |labels[k]| <= MAX_LABEL && !Known(compression, labels, k)
    ensures CutAt(was, was + Wire(labels, i) + PointerBytes(compression[Join(labels[i..])]), compression,
                  Recorded(compression, labels, |was|, i), labels, i)
  {
    hide Wire, Recorded;
  }

  lemma {:induction false} TerminatorCut(was: Bytes, compression: Compression, labels: seq<Label>)
    requires forall k :: 0 <= k < |labels| ==> |labels[k]| <= MAX_LABEL && !Known(compression, labels, k)
    ensures CutAt(was, was + Wire(labels, |labels|) + [0], compression, Recorded(compression, labels, |was|, |labels|), labels, |labels|)
  {
    hide Wire, Recorded, Known;
  }

  /** From `was` to `now` exactly one name was written, and it reads back as these labels. */
  ghost predicate Written(was: Bytes, now: Bytes, labels: seq<Label>) {
    && was <= now
    && Parse(now, |was|, 0) == Ok(Parsed(labels, |now|))
    && SpellsAt(now, |was|, labels)
  }

  lemma {:induction false} LegalLengths(labels: seq<Label>)
    ensures LegalLabels(labels) ==> forall k :: 0 <= k < |labels| ==> 0 < |labels[k]| <= MAX_LABEL
    ensures LegalLabels(labels) ==> |labels| < MAX_JUMPS
  {
    if LegalLabels(labels) {
      LabelCount(labels);
    }
  }

  lemma {:induction false} WrittenRoot(was: Bytes)
    ensures Written(was, was + [0], [])
  {
  }

  lemma {:induction false} NothingWritten(compression: Compression, labels: seq<Label>, base: nat)
    ensures Wire(labels, 0) == [] && Recorded(compression, labels, base, 0) == compression
  {
  }

  lemma {:induction false} WireNext(compression: Compression, labels: seq<Label>, base: nat, i: nat)
    requires i < |labels| && forall k :: 0 <= k <= i ==> |labels[k]| <= MAX_LABEL
    ensures Wire(labels, i + 1) == Wire(labels, i) + [|labels[i]|] + labels[i]
    ensures Recorded(compression, labels, base, i + 1)
         == Recorded(compression, labels, base, i)[Join(labels[i..]) := base + |Wire(labels, i)|]
  {
  }

  /** A suffix is never among the longer ones of the same name. */
  lemma {:induction false} NotRecorded(compression: Compression, labels: seq<Label>, base: nat, i: nat)
    requires i < |labels| && DotFree(labels) && forall k :: 0 <= k < i ==> |labels[k]| <= MAX_LABEL
    ensures var key := Join(labels[i..]);
      && (key in Recorded(compression, labels, base, i) <==> key in compression)
      && (key in compression ==> Recorded(compression, labels, base, i)[key] == compression[key])
  {
    NotRecordedBelow(compression, labels, base, i, i);
  }

  lemma {:induction false} NotRecordedBelow(compression: Compression, labels: seq<Label>, base: nat, n: nat, i: nat)
    requires n <= i < |labels| && DotFree(labels) && forall k :: 0 <= k < i ==> |labels[k]| <= MAX_LABEL
    ensures var key := Join(labels[i..]);
      && (key in Recorded(compression, labels, base, n) <==> key in compression)
      && (key in compression ==> Recorded(compression, labels, base, n)[key] == compression[key])
  {
    hide Join, Wire;
    if n > 0 {
      NotRecordedBelow(compression, labels, base, n - 1, i);
      if Join(labels[n - 1..]) == Join(labels[i..]) {
        JoinInjective(labels[n - 1..], labels[i..]);
      }
    }
  }

  lemma {:induction false} SoundEntry(msg: Bytes, compression: Compression, key: Bytes)
    requires Sound(msg, compression) && key in compression && compression[key] < POINTER_LIMIT
    ensures Reaches(msg, compression[key], key)
  {
  }

  lemma {:induction false} SoundLonger(msg: Bytes, more: Bytes, compression: Compression)
    requires Sound(msg, compression)
    ensures Sound(msg + more, compression)
  {
    forall key | key in compression && compression[key] < POINTER_LIMIT
      ensures Reaches(msg + more, compression[key], key)
    {
      assert Reaches(msg, compression[key], key);
      var labels: seq<Label> :| labels != [] && DotFree(labels) && Join(labels) == key && StartsAt(msg, compression[key], labels);
      StartsLonger(msg, more, compression[key], labels);
    }
  }

  /** Position and bytes of label `k` of a name written at `base`. */
  lemma {:induction false} WireAt(was: Bytes, labels: seq<Label>, n: nat, k: nat, tail: Bytes)
    requires k < n <= |labels| && forall j :: 0 <= j < n ==> 0 < |labels[j]| <= MAX_LABEL
    ensures |Wire(labels, k + 1)| == |Wire(labels, k)| + 1 + |labels[k]| && |Wire(labels, k + 1)| <= |Wire(labels, n)|
    ensures LabelAt(was + Wire(labels, n) + tail, |was| + |Wire(labels, k)|, labels[k])
  {
    hide Wire, LabelAt;
    WireNext(map[], labels, 0, n - 1);
    var l := labels[n - 1];
    Regroup(was, Wire(labels, n - 1), [|l|], l, tail);
    if k == n - 1 {
      LabelHere(was + Wire(labels, k), l, tail);
    } else {
      WireAt(was, labels, n - 1, k, [|l|] + l + tail);
    }
  }

  lemma {:induction false} Regroup(a: Bytes, b: Bytes, c: Bytes, d: Bytes, e: Bytes)
    ensures a + (b + c + d) + e == a + b + (c + d + e)
    ensures a + (b + c + d) + e == a + b + (c + d) + e
  {
  }

  lemma {:induction false} LabelHere(before: Bytes, l: Label, tail: Bytes)
    requires 0 < |l| <= MAX_LABEL
    ensures LabelAt(before + ([|l|] + l) + tail, |before|, l)
  {
  }

  /** If the bytes after the first `n` labels spell the others, every suffix is spelled in its place. */
  lemma {:induction false} SuffixesSpelled(was: Bytes, labels: seq<Label>, n: nat, k: nat, tail: Bytes)
    requires k <= n <= |labels| && forall j :: 0 <= j < n ==> 0 < |labels[j]| <= MAX_LABEL
    requires SpellsAt(was + Wire(labels, n) + tail, |was| + |Wire(labels, n)|, labels[n..])
    ensures SpellsAt(was + Wire(labels, n) + tail, |was| + |Wire(labels, k)|, labels[k..])
    ensures k < n ==> StartsAt(was + Wire(labels, n) + tail, |was| + |Wire(labels, k)|, labels[k..])
    decreases n - k
  {
    hide Wire;
    if k < n {
      SuffixesSpelled(was, labels, n, k + 1, tail);
      WireAt(was, labels, n, k, tail);
      assert labels[k..][1..] == labels[k + 1..] && labels[k..][0] == labels[k];
    }
  }

  /** Decoding runs through the literal labels to whatever ends the name. */
  lemma {:induction false} LabelsParsed(was: Bytes, labels: seq<Label>, n: nat, k: nat, tail: Bytes)
    requires k <= n <= |labels| && forall j :: 0 <= j < n ==> 0 < |labels[j]| <= MAX_LABEL
    ensures |Wire(labels, k)| <= |Wire(labels, n)|
    ensures var msg := was + Wire(labels, n) + tail;
      var last := Parse(msg, |was| + |Wire(labels, n)|, 0);
      last.Ok? ==> Parse(msg, |was| + |Wire(labels, k)|, 0) == Ok(Parsed(labels[k..n] + last.value.labels, last.value.next))
    decreases n - k
  {
    hide Wire, Parse;
    var msg := was + Wire(labels, n) + tail;
    var last := Parse(msg, |was| + |Wire(labels, n)|, 0);
    if k < n {
      LabelsParsed(was, labels, n, k + 1, tail);
      WireAt(was, labels, n, k, tail);
      LabelParsed(msg, |was| + |Wire(labels, k)|, labels[k], 0);
      assert labels[k..n] == [labels[k]] + labels[k + 1..n];
      if last.Ok? {
        assert [labels[k]] + (labels[k + 1..n] + last.value.labels) == labels[k..n] + last.value.labels;
      }
    } else if last.Ok? {
      assert labels[k..n] + last.value.labels == last.value.labels;
    }
  }

  lemma {:induction false} RecordedSound(was: Bytes, compression: Compression, labels: seq<Label>, n: nat, i: nat, tail: Bytes)
    requires i <= n <= |labels| && DotFree(labels) && forall j :: 0 <= j < n ==> 0 < |labels[j]| <= MAX_LABEL
    requires Sound(was, compression)
    requires SpellsAt(was + Wire(labels, n) + tail, |was| + |Wire(labels, n)|, labels[n..])
    ensures Sound(was + Wire(labels, n) + tail, Recorded(compression, labels, |was|, i))
    decreases i
  {
    hide Wire, SpellsAt, StartsAt;
    var msg := was + Wire(labels, n) + tail;
    if i == 0 {
      SoundLonger(was, Wire(labels, n) + tail, compression);
      assert was + (Wire(labels, n) + tail) == msg;
    } else {
      RecordedSound(was, compression, labels, n, i - 1, tail);
      SuffixesSpelled(was, labels, n, i - 1, tail);
      assert DotFree(labels[i - 1..]);
      assert Reaches(msg, |was| + |Wire(labels, i - 1)|, Join(labels[i - 1..]));
    }
  }

  lemma {:induction false} FinishWithTerminator(was: Bytes, compression: Compression, labels: seq<Label>)
    requires LegalLabels(labels) && DotFree(labels) && Sound(was, compression)
    requires forall k :: 0 <= k < |labels| ==> |labels[k]| <= MAX_LABEL
    ensures var n := |labels|;
      var now := was + Wire(labels, n) + [0];
      Written(was, now, labels) && Sound(now, Recorded(compression, labels, |was|, n))
  {
    hide Wire, Recorded, Sound;
    LegalLengths(labels);
    var n := |labels|;
    var now := was + Wire(labels, n) + [0];
    NothingWritten(compression, labels, 0);
    assert labels[n..] == [] && now[|was| + |Wire(labels, n)|] == 0;
    TerminatorParsed(now, |was| + |Wire(labels, n)|);
    hide SpellsAt, Parse;
    SuffixesSpelled(was, labels, n, 0, [0]);
    RecordedSound(was, compression, labels, n, n, [0]);
    LabelsParsed(was, labels, n, 0, [0]);
    assert labels[n..] == [];
    WholeName(was, now, labels, n, |now|);
  }

  lemma {:induction false} TerminatorParsed(msg: Bytes, off: nat)
    requires off < |msg| && msg[off] == 0
    ensures Parse(msg, off, 0) == Ok(Parsed([], off + 1)) && SpellsAt(msg, off, [])
  {
  }

  lemma {:induction false} FinishWithPointer(was: Bytes, compression: Compression, labels: seq<Label>, i: nat, offset: nat)
    requires LegalLabels(labels) && DotFree(labels) && Sound(was, compression) && i < |labels|
    requires forall k :: 0 <= k < i ==> |labels[k]| <= MAX_LABEL
    requires Join(labels[i..]) in compression && compression[Join(labels[i..])] == offset < POINTER_LIMIT
    ensures var now := was + Wire(labels, i) + PointerBytes(offset);
      Written(was, now, labels) && Sound(now, Recorded(compression, labels, |was|, i))
  {
    hide *;
    LegalLengths(labels);
    var tail := PointerBytes(offset);
    SoundEntry(was, compression, Join(labels[i..]));
    SuffixDotFree(labels, i);
    TargetFound(was, offset, labels[i..], Wire(labels, i) + tail);
    assert was + (Wire(labels, i) + tail) == was + Wire(labels, i) + tail;
    PointerWritten(was + Wire(labels, i), offset, labels[i..]);
    PointerFinishes(was, compression, labels, i, offset, tail);
  }

  /** A pointer: the top two bits set, the offset in the other fourteen. */
  function PointerBytes(offset: nat): (b: Bytes)
    requires offset < POINTER_LIMIT
    ensures |b| == 2
  {
    [0xC0 + offset / 256, offset % 256]
  }

  lemma {:induction false} SuffixDotFree(labels: seq<Label>, i: nat)
    requires DotFree(labels) && i <= |labels|
    ensures DotFree(labels[i..])
  {
  }

  lemma {:induction false} TargetFound(was: Bytes, offset: nat, labels: seq<Label>, more: Bytes)
    requires Reaches(was, offset, Join(labels)) && DotFree(labels)
    ensures StartsAt(was + more, offset, labels) && offset < |was|
  {
    hide StartsAt, Join;
    var rest: seq<Label> :| rest != [] && DotFree(rest) && Join(rest) == Join(labels) && StartsAt(was, offset, rest);
    JoinInjective(rest, labels);
    StartInside(was, offset, labels);
    StartsLonger(was, more, offset, labels);
  }

  lemma {:induction false} StartInside(msg: Bytes, off: nat, labels: seq<Label>)
    requires StartsAt(msg, off, labels)
    ensures off < |msg|
  {
  }

  lemma {:induction false} PointerWritten(msg: Bytes, offset: nat, labels: seq<Label>)
    requires offset < POINTER_LIMIT && offset < |msg|
    ensures PointerAt(msg + PointerBytes(offset), |msg|, offset)
  {
  }

  lemma {:induction false} PointerFinishes(was: Bytes, compression: Compression, labels: seq<Label>, i: nat, offset: nat, tail: Bytes)
    requires LegalLabels(labels) && DotFree(labels) && Sound(was, compression) && i < |labels| < MAX_JUMPS
    requires forall k :: 0 <= k < i ==> 0 < |labels[k]| <= MAX_LABEL
    requires |tail| == 2
    requires var now := was + Wire(labels, i) + tail;
      PointerAt(now, |was| + |Wire(labels, i)|, offset) && StartsAt(now, offset, labels[i..])
    ensures var now := was + Wire(labels, i) + tail;
      Written(was, now, labels) && Sound(now, Recorded(compression, labels, |was|, i))
  {
    hide *;
    var now, at := was + Wire(labels, i) + tail, |was| + |Wire(labels, i)|;
    SpelledByPointer(now, at, offset, labels[i..]);
    SuffixesSpelled(was, labels, i, 0, tail);
    RecordedSound(was, compression, labels, i, i, tail);
    PointerParsed(now, at, offset, labels[i..]);
    LabelsParsed(was, labels, i, 0, tail);
    WholeName(was, now, labels, i, at + 2);
  }

  lemma {:induction false} SpelledByPointer(msg: Bytes, off: nat, target: nat, labels: seq<Label>)
    requires PointerAt(msg, off, target) && StartsAt(msg, target, labels)
    ensures SpellsAt(msg, off, labels)
  {
    hide StartsAt, PointerAt;
  }

  /** The pieces of a written name put together. */
  lemma {:induction false} WholeName(was: Bytes, now: Bytes, labels: seq<Label>, i: nat, next: nat)
    requires i <= |labels| && was <= now && next == |now|
    requires SpellsAt(now, |was| + |Wire(labels, 0)|, labels[0..])
    requires Parse(now, |was| + |Wire(labels, 0)|, 0) == Ok(Parsed(labels[0..i] + labels[i..], next))
    ensures Written(was, now, labels)
  {
    hide SpellsAt, Parse, Join;
    assert labels[0..] == labels && labels[0..i] + labels[i..] == labels;
  }

  lemma {:induction false} PointerParsed(msg: Bytes, off: nat, target: nat, labels: seq<Label>)
    requires PointerAt(msg, off, target) && StartsAt(msg, target, labels) && |labels| < MAX_JUMPS
    ensures Parse(msg, off, 0) == Ok(Parsed(labels, off + 2))
  {
    hide StartsAt, Parse;
    StartIsParsed(msg, target, labels, 1);
    var head: int := msg[off];
    assert (head - 0xC0) * 256 + msg[off + 1] == target;
    ParseOnce(msg, off, 0);
  }

  // ---- Whole messages ----

  /** Any bytes, followed by a name. */
  datatype Item = Item(gap: Bytes, name: Bytes)

  /** The successful steps of the decoder. */
  lemma {:induction false} ParseOnce(msg: Bytes, off: nat, jumps: nat)
    requires off <= |msg| && jumps < MAX_JUMPS
    ensures off == |msg| ==> Parse(msg, off, jumps).Err?
    ensures off < |msg| ==>
      var len: int := msg[off];
      if len == 0 then Parse(msg, off, jumps) == Ok(Parsed([], off + 1))
      else if len >= 0xC0 then
        if off + 1 < |msg| && (len - 0xC0) * 256 + msg[off + 1] < |msg| && jumps + 1 < MAX_JUMPS then
          var rest := Parse(msg, (len - 0xC0) * 256 + msg[off + 1], jumps + 1);
          if rest.Ok? then Parse(msg, off, jumps) == Ok(Parsed(rest.value.labels, off + 2)) else Parse(msg, off, jumps).Err?
        else Parse(msg, off, jumps).Err?
      else if len <= MAX_LABEL && off + 1 + len <= |msg| then
        var rest := Parse(msg, off + 1 + len, jumps);
        if rest.Ok? then Parse(msg, off, jumps) == Ok(Parsed([msg[off + 1..off + 1 + len]] + rest.value.labels, rest.value.next))
        else Parse(msg, off, jumps).Err?
      else Parse(msg, off, jumps).Err?
  {
  }

  /** A decoding that succeeds is not changed by bytes appended later. */
  lemma {:induction false} ParseLonger(msg: Bytes, more: Bytes, off: nat, jumps: nat)
    requires off <= |msg| && jumps < MAX_JUMPS && Parse(msg, off, jumps).Ok?
    ensures Parse(msg + more, off, jumps) == Parse(msg, off, jumps)
    decreases MAX_JUMPS - jumps, |msg| - off
  {
    hide Parse;
    ParseOnce(msg, off, jumps);
    ParseOnce(msg + more, off, jumps);
    var len: int := msg[off];
    if len >= 0xC0 {
      ParseLonger(msg, more, (len - 0xC0) * 256 + msg[off + 1], jumps + 1);
    } else if len > 0 {
      assert (msg + more)[off + 1..off + 1 + len] == msg[off + 1..off + 1 + len];
      ParseLonger(msg, more, off + 1 + len, jumps);
    }
  }

  /** Where name `k` starts and ends, it decodes to its labels. */
  ghost predicate ReadBack(msg: Bytes, items: seq<Item>, starts: seq<nat>, ends: seq<nat>, n: nat) {
    && |starts| == n && |ends| == n && n <= |items|
    && forall k :: 0 <= k < n ==>
         starts[k] <= |msg| && Parse(msg, starts[k], 0) == Ok(Parsed(LabelsOf(items[k].name), ends[k]))
  }

  lemma {:induction false} ReadBackLonger(msg: Bytes, more: Bytes, items: seq<Item>, starts: seq<nat>, ends: seq<nat>, n: nat)
    requires ReadBack(msg, items, starts, ends, n)
    ensures ReadBack(msg + more, items, starts, ends, n)
  {
    hide Parse;
    forall k | 0 <= k < n
      ensures Parse(msg + more, starts[k], 0) == Ok(Parsed(LabelsOf(items[k].name), ends[k]))
    {
      ParseLonger(msg, more, starts[k], 0);
    }
  }

  lemma {:induction false} ReadBackMore(msg: Bytes, items: seq<Item>, starts: seq<nat>, ends: seq<nat>, n: nat, start: nat)
    requires ReadBack(msg, items, starts, ends, n) && n < |items| && start <= |msg|
    requires Parse(msg, start, 0) == Ok(Parsed(LabelsOf(items[n].name), |msg|))
    ensures ReadBack(msg, items, starts + [start], ends + [|msg|], n + 1)
  {
    hide Parse;
  }

  /**
   * Names written through one compression map, with any bytes between them: in the finished message
   * every name decodes, from where it starts, to its own labels, and ends where the next bytes begin.
   */
  method WriteMessage(items: seq<Item>) returns (writer: BufferWriter, starts: seq<nat>, ends: seq<nat>)
    requires forall item :: item in items ==> LegalName(item.name)
    ensures ReadBack(writer.data, items, starts, ends, |items|)
    ensures forall k :: 0 <= k < |items| ==>
      starts[k] == (if k == 0 then 0 else ends[k - 1]) + |items[k].gap|
    ensures |writer.data| == if items == [] then 0 else ends[|items| - 1]
  {
    hide *;
    writer := new BufferWriter();
    starts, ends := [], [];
    var compression: Compression := map[];
    NothingRead(items);
    var n := 0;
    while n < |items|
      invariant 0 <= n <= |items| && |starts| == n && |ends| == n && fresh(writer)
      invariant ReadBack(writer.data, items, starts, ends, n) && Sound(writer.data, compression)
      invariant |writer.data| == if n == 0 then 0 else ends[n - 1]
      invariant forall k :: 0 <= k < n ==> starts[k] == (if k == 0 then 0 else ends[k - 1]) + |items[k].gap|
    {
      SoundLonger(writer.data, items[n].gap, compression);
      ReadBackLonger(writer.data, items[n].gap, items, starts, ends, n);
      writer.WriteBytes(items[n].gap);
      ghost var before := writer.data;
      var start := |writer.data|;
      var r;
      assert items[n] in items;
      r, compression := Write(items[n].name, writer, compression);
      WrittenBack(before, writer.data, LabelsOf(items[n].name));
      assert writer.data == before + writer.data[|before|..];
      ReadBackLonger(before, writer.data[|before|..], items, starts, ends, n);
      ReadBackMore(writer.data, items, starts, ends, n, start);
      starts, ends := starts + [start], ends + [|writer.data|];
      n := n + 1;
    }
  }

  lemma {:induction false} WrittenBack(was: Bytes, now: Bytes, labels: seq<Label>)
    requires Written(was, now, labels)
    ensures was <= now && Parse(now, |was|, 0) == Ok(Parsed(labels, |now|)) && MAX_JUMPS > 0
  {
    hide Parse, SpellsAt;
  }

  lemma {:induction false} NothingRead(items: seq<Item>)
    ensures ReadBack([], items, [], [], 0) && Sound([], map[])
  {
  }

  /** Reading a name back at its place gives the name, with its final dot, and leaves the reader behind it. */
  method ReadName(message: Bytes, items: seq<Item>, starts: seq<nat>, ghost ends: seq<nat>, k: nat)
    returns (r: Result<Bytes, DnsError>, reader: BufferReader)
    requires ReadBack(message, items, starts, ends, |items|) && k < |items|
    ensures r == Ok(if Cleaned(items[k].name) == [] then [DOT] else Cleaned(items[k].name) + [DOT])
    ensures reader.offset == ends[k]
  {
    hide Parse, Split;
    reader := new BufferReader(message);
    reader.offset := starts[k];
    r := Decode(reader);
    JoinSplit(Cleaned(items[k].name));
  }
}
