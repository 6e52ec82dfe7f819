// Replaying the tail of a recorded chat: the bounded payload the server builds and the
// events the browser reads back from it.
module Restore {
  import opened Common

  // How one event travels. `load` is the server's reader, `dump` its writer, `read` the
  // browser's reader; each reader refuses what is not a JSON object. `size` is the
  // number of UTF-8 bytes, and None for text that has none (a lone surrogate).
  datatype Codec<!E(!new)> = Codec(
    load: string -> Option<E>,
    dump: E -> string,
    read: string -> Option<E>,
    size: string -> Option<nat>)
  {
    // A dumped object starts with a brace and has no raw newline.
    ghost predicate Lawful() {
      forall e :: dump(e) != "" && dump(e)[0] == '{' && '\n' !in dump(e)
    }
  }

  datatype Row = Row(kind: string, data: Option<string>)

  // ---- The server's side --------------------------------------------------------------

  function Loaded<E(!new)>(codec: Codec<E>, row: Row): Option<E> {
    if row.kind != "event" || row.data.None? then None else codec.load(row.data.value)
  }

  // The valid events of the rows, in order.
  function Events<E(!new)>(codec: Codec<E>, rows: seq<Row>): seq<E> {
    if rows == [] then []
    else (match Loaded(codec, rows[0]) case None => [] case Some(e) => [e]) + Events(codec, rows[1..])
  }

  predicate Sized<E(!new)>(codec: Codec<E>, events: seq<E>) {
    forall i :: 0 <= i < |events| ==> codec.size(codec.dump(events[i])).Some?
  }

  // The bytes of the events with a newline each.
  function Bytes<E(!new)>(codec: Codec<E>, events: seq<E>): nat {
    if events == [] then 0
    else
      var n := codec.size(codec.dump(events[0]));
      (if n.Some? then n.value else 0) + 1 + Bytes(codec, events[1..])
  }

  function Dumped<E(!new)>(codec: Codec<E>, events: seq<E>): seq<string> {
    seq(|events|, i requires 0 <= i < |events| => codec.dump(events[i]))
  }

  function Join(lines: seq<string>): string {
    if lines == [] then ""
    else if |lines| == 1 then lines[0]
    else lines[0] + "\n" + Join(lines[1..])
  }

  function Last<E>(events: seq<E>, n: nat): seq<E>
    requires n <= |events|
  {
    events[|events| - n..]
  }

  // The last n events fit the bound and no longer suffix does.
  ghost predicate LongestFitting<E(!new)>(codec: Codec<E>, events: seq<E>, n: nat, maxBytes: int) {
    && n <= |events|
    && Sized(codec, Last(events, n)) && Bytes(codec, Last(events, n)) <= maxBytes
    && forall m :: n < m <= |events| ==> Bytes(codec, Last(events, m)) > maxBytes
  }

  lemma {:induction false} EventsConcat<E(!new)>(codec: Codec<E>, a: seq<Row>, b: seq<Row>)
    ensures Events(codec, a + b) == Events(codec, a) + Events(codec, b)
  {
    if a == [] {
      assert a + b == b;
    } else {
      assert (a + b)[1..] == a[1..] + b;
      EventsConcat(codec, a[1..], b);
    }
  }

  lemma {:induction false} BytesGrow<E(!new)>(codec: Codec<E>, events: seq<E>, m: nat, n: nat)
    requires m <= n <= |events|
    ensures Bytes(codec, Last(events, m)) <= Bytes(codec, Last(events, n))
    decreases n
  {
    if m < n {
      assert Last(events, n)[1..] == Last(events, n - 1);
      BytesGrow(codec, events, m, n - 1);
    }
  }

  lemma LongestFrom<E(!new)>(codec: Codec<E>, events: seq<E>, n: nat, maxBytes: int)
    requires n <= |events| && Sized(codec, Last(events, n)) && Bytes(codec, Last(events, n)) <= maxBytes
    requires n < |events| ==> Bytes(codec, Last(events, n + 1)) > maxBytes
    ensures LongestFitting(codec, events, n, maxBytes)
  {
    forall m | n < m <= |events|
      ensures Bytes(codec, Last(events, m)) > maxBytes
    {
      BytesGrow(codec, events, n + 1, m);
    }
  }

  lemma OneRowBack<E(!new)>(codec: Codec<E>, rows: seq<Row>, i: nat)
    requires i < |rows|
    ensures var tail := Events(codec, rows[i + 1..]); var longer := Events(codec, rows[i..]); var events := Events(codec, rows);
            && longer == (match Loaded(codec, rows[i]) case None => [] case Some(e) => [e]) + tail
            && |longer| <= |events| && longer == Last(events, |longer|)
            && (Loaded(codec, rows[i]).Some? ==> events[|events| - 1 - |tail|] == Loaded(codec, rows[i]).value)
  {
    assert rows[i..][1..] == rows[i + 1..];
    assert rows == rows[..i] + rows[i..];
    EventsConcat(codec, rows[..i], rows[i..]);
  }

  lemma OneEventBack<E(!new)>(codec: Codec<E>, tail: seq<E>, e: E)
    ensures Dumped(codec, [e] + tail) == [codec.dump(e)] + Dumped(codec, tail)
    ensures codec.size(codec.dump(e)).Some? ==>
              && (Sized(codec, [e] + tail) <==> Sized(codec, tail))
              && Bytes(codec, [e] + tail) == codec.size(codec.dump(e)).value + 1 + Bytes(codec, tail)
  {
    var longer := [e] + tail;
    assert longer[1..] == tail;
    if Sized(codec, longer) {
      forall i | 0 <= i < |tail|
        ensures codec.size(codec.dump(tail[i])).Some?
      {
        assert longer[i + 1] == tail[i];
      }
    }
  }

  // The rows that hold an event, in order, and the events they hold.
  ghost predicate Picks<E(!new)>(codec: Codec<E>, rows: seq<Row>, picked: seq<nat>, events: seq<E>) {
    && |picked| == |events|
    && (forall i, j :: 0 <= i < j < |picked| ==> picked[i] < picked[j])
    && (forall i: nat :: i in picked <==> i < |rows| && rows[i].kind == "event" && rows[i].data.Some?
                                          && codec.load(rows[i].data.value).Some?)
    && (forall j :: 0 <= j < |picked| ==> picked[j] < |rows| && rows[picked[j]].data.Some?
                                          && codec.load(rows[picked[j]].data.value) == Some(events[j]))
  }

  lemma {:induction false} EventsPicked<E(!new)>(codec: Codec<E>, rows: seq<Row>) returns (picked: seq<nat>)
    ensures Picks(codec, rows, picked, Events(codec, rows))
    decreases |rows|
  {
    if rows == [] {
      picked := [];
    } else {
      var n := |rows| - 1;
      var before := EventsPicked(codec, rows[..n]);
      assert rows == rows[..n] + [rows[n]];
      EventsConcat(codec, rows[..n], [rows[n]]);
      assert [rows[n]][1..] == [];
      picked := if Loaded(codec, rows[n]).Some? then before + [n] else before;
      OneMorePicked(codec, rows, before, Events(codec, rows[..n]), picked, Events(codec, rows));
    }
  }

  lemma OneMorePicked<E(!new)>(codec: Codec<E>, rows: seq<Row>, before: seq<nat>, events: seq<E>,
                               picked: seq<nat>, longer: seq<E>)
    requires rows != [] && Picks(codec, rows[..|rows| - 1], before, events)
    requires var row := rows[|rows| - 1];
             if row.kind == "event" && row.data.Some? && codec.load(row.data.value).Some?
             then picked == before + [|rows| - 1] && longer == events + [codec.load(row.data.value).value]
             else picked == before && longer == events
    ensures Picks(codec, rows, picked, longer)
  {
    var n := |rows| - 1;
    forall i: nat
      ensures i in picked <==> i in before || (i == n && picked != before)
    {}
    assert forall i: nat :: i < n ==> rows[..n][i] == rows[i];
  }

  // What the bound is about: sizes that add up, with a newline of one byte.
  ghost predicate Additive<E(!new)>(codec: Codec<E>) {
    && codec.size("\n") == Some(1)
    && forall a, b :: codec.size(a).Some? && codec.size(b).Some? ==>
         codec.size(a + b) == Some(codec.size(a).value + codec.size(b).value)
  }

  // The payload and one newline take exactly the counted bytes.
  lemma {:induction false} PayloadSize<E(!new)>(codec: Codec<E>, events: seq<E>)
    requires Additive(codec) && Sized(codec, events) && events != []
    ensures codec.size(Join(Dumped(codec, events))).Some?
    ensures codec.size(Join(Dumped(codec, events))).value + 1 == Bytes(codec, events)
    decreases |events|
  {
    var lines := Dumped(codec, events);
    if |events| > 1 {
      forall i | 0 <= i < |events| - 1
        ensures codec.size(codec.dump(events[1..][i])).Some?
      {
        assert events[1..][i] == events[i + 1];
      }
      PayloadSize(codec, events[1..]);
      assert lines[1..] == Dumped(codec, events[1..]);
      assert Join(lines) == lines[0] + "\n" + Join(lines[1..]);
      assert codec.size(lines[0] + "\n") == Some(codec.size(lines[0]).value + 1);
    } else {
      assert events[1..] == [];
    }
  }

  lemma KeptFits<E(!new)>(codec: Codec<E>, tail: seq<E>, kept: seq<string>, maxBytes: int)
    requires Sized(codec, tail) && Bytes(codec, tail) <= maxBytes && kept == Dumped(codec, tail)
    ensures Additive(codec) && Join(kept) != "" ==> codec.size(Join(kept)).Some? && codec.size(Join(kept)).value < maxBytes
  {
    if Additive(codec) && tail != [] {
      PayloadSize(codec, tail);
    }
  }

  // The bounded payload: the last events that fit, one to a line. The events are those of
  // the rows that hold one.
  method EventRestore<E(!new)>(codec: Codec<E>, rows: seq<Row>, maxBytes: int) returns (r: Result<string>, ghost n: nat)
    ensures maxBytes <= 0 ==> r == Ok("")
    ensures maxBytes > 0 && r.Ok? ==>
              && LongestFitting(codec, Events(codec, rows), n, maxBytes)
              && r.value == Join(Dumped(codec, Last(Events(codec, rows), n)))
    ensures maxBytes > 0 && r.Ok? ==>
              exists picked, events ::
                && Picks(codec, rows, picked, events)
                && LongestFitting(codec, events, n, maxBytes) && r.value == Join(Dumped(codec, Last(events, n)))
    ensures r.Ok? && Additive(codec) && r.value != "" ==>
              codec.size(r.value).Some? && codec.size(r.value).value < maxBytes
    ensures r.Err? ==>
              && n < |Events(codec, rows)|
              && Bytes(codec, Last(Events(codec, rows), n)) <= maxBytes
              && codec.size(codec.dump(Events(codec, rows)[|Events(codec, rows)| - 1 - n])).None?
  {
    n := 0;
    if maxBytes <= 0 {
      return Ok(""), 0;
    }
    var kept;
    kept, n := Collect(codec, rows, maxBytes);
    if kept.Err? {
      return Err(kept.reason), n;
    }
    ghost var picked := EventsPicked(codec, rows);
    KeptFits(codec, Last(Events(codec, rows), n), kept.value, maxBytes);
    r := Ok(Join(kept.value));
  }

  // Walks the rows from the last one back. Invalid rows are passed over; the first
  // valid one that no longer fits ends the walk. Text without a byte form raises.
  method Collect<E(!new)>(codec: Codec<E>, rows: seq<Row>, maxBytes: int) returns (r: Result<seq<string>>, ghost n: nat)
    requires maxBytes > 0
    ensures r.Ok? ==>
              && LongestFitting(codec, Events(codec, rows), n, maxBytes)
              && r.value == Dumped(codec, Last(Events(codec, rows), n))
    ensures r.Err? ==>
              && n < |Events(codec, rows)|
              && Bytes(codec, Last(Events(codec, rows), n)) <= maxBytes
              && codec.size(codec.dump(Events(codec, rows)[|Events(codec, rows)| - 1 - n])).None?
  {
    n := 0;
    var kept: seq<string> := [];
    var size := 0;
    var i := |rows|;
    ghost var events := Events(codec, rows);
    ghost var tail: seq<E> := [];
    assert rows[|rows|..] == [];
    while i > 0
      invariant 0 <= i <= |rows|
      invariant tail == Events(codec, rows[i..])
      invariant n == |tail| <= |events| && tail == Last(events, n)
      invariant Sized(codec, tail) && size == Bytes(codec, tail) <= maxBytes
      invariant kept == Dumped(codec, tail)
    {
      i := i - 1;
      OneRowBack(codec, rows, i);
      var loaded := Loaded(codec, rows[i]);
      if loaded.None? {
        continue;
      }
      var e := loaded.value;
      OneEventBack(codec, tail, e);
      var encoded := codec.dump(e);
      var bytes := codec.size(encoded);
      if bytes.None? {
        return Err("surrogates not allowed"), n;
      }
      if size + bytes.value + 1 > maxBytes {
        LongestFrom(codec, events, n, maxBytes);
        return Ok(kept), n;
      }
      size := size + bytes.value + 1;
      kept := [encoded] + kept;
      tail := [e] + tail;
      n := n + 1;
    }
    assert rows[0..] == rows;
    LongestFrom(codec, events, n, maxBytes);
    r := Ok(kept);
  }

  // ---- The browser's side -----------------------------------------------------------------

  // One more character in front of the first line.
  function InFront(c: char, lines: seq<string>): seq<string>
    requires lines != []
  {
    if c == '\n' then [""] + lines else [[c] + lines[0]] + lines[1..]
  }

  function Lines(s: string): (lines: seq<string>)
    ensures lines != []
  {
    if s == "" then [""] else InFront(s[0], Lines(s[1..]))
  }

  predicate Blank(line: string) {
    forall i :: 0 <= i < |line| ==> line[i] in {' ', '\t', '\r', '\n'}
  }

  // The event on a line, if there is one.
  function ReadLine<E(!new)>(codec: Codec<E>, line: string): seq<E> {
    if Blank(line) then []
    else match codec.read(line) case None => [] case Some(e) => [e]
  }

  function Readable<E(!new)>(codec: Codec<E>, lines: seq<string>): seq<E> {
    if lines == [] then [] else ReadLine(codec, lines[0]) + Readable(codec, lines[1..])
  }

  function Parse<E(!new)>(codec: Codec<E>, payload: string): seq<E> {
    Readable(codec, Lines(payload))
  }

  method ParseEventPayload<E(!new)>(codec: Codec<E>, payload: string) returns (events: seq<E>)
    ensures events == Parse(codec, payload)
  {
    var lines := Lines(payload);
    events := [];
    for i := 0 to |lines|
      invariant events == Readable(codec, lines[..i])
    {
      OneLine(codec, lines, i);
      if Blank(lines[i]) {
        continue;
      }
      var event := codec.read(lines[i]);
      if event.Some? {
        events := events + [event.value];
      }
    }
    assert lines[..|lines|] == lines;
  }

  lemma OneLine<E(!new)>(codec: Codec<E>, lines: seq<string>, i: nat)
    requires i < |lines|
    ensures Readable(codec, lines[..i + 1]) == Readable(codec, lines[..i]) + ReadLine(codec, lines[i])
  {
    assert lines[..i + 1] == lines[..i] + [lines[i]];
    ReadableConcat(codec, lines[..i], [lines[i]]);
    assert [lines[i]][1..] == [];
    assert Readable(codec, [lines[i]]) == ReadLine(codec, lines[i]) + Readable(codec, []);
  }

  lemma {:induction false} LinesOfLine(s: string)
    requires '\n' !in s
    ensures Lines(s) == [s]
  {
    if s != "" {
      LinesOfLine(s[1..]);
      assert s == [s[0]] + s[1..];
    }
  }

  lemma InFrontConcat(c: char, a: seq<string>, b: seq<string>)
    requires a != []
    ensures InFront(c, a + b) == InFront(c, a) + b
  {
  }

  lemma LinesStep(c: char, s: string)
    ensures Lines([c] + s) == InFront(c, Lines(s))
  {
    assert ([c] + s)[1..] == s;
  }

  lemma {:induction false} LinesConcat(a: string, b: string)
    ensures Lines(a + "\n" + b) == Lines(a) + Lines(b)
  {
    if a == "" {
      assert a + "\n" + b == ['\n'] + b;
      LinesStep('\n', b);
    } else {
      var tail := a[1..] + "\n" + b;
      LinesConcat(a[1..], b);
      assert a == [a[0]] + a[1..] && a + "\n" + b == [a[0]] + tail;
      LinesStep(a[0], a[1..]);
      LinesStep(a[0], tail);
      InFrontConcat(a[0], Lines(a[1..]), Lines(b));
    }
  }

  lemma {:induction false} LinesOfJoin(lines: seq<string>)
    requires lines != [] && forall i :: 0 <= i < |lines| ==> '\n' !in lines[i]
    ensures Lines(Join(lines)) == lines
  {
    LinesOfLine(lines[0]);
    if |lines| > 1 {
      LinesOfJoin(lines[1..]);
      LinesConcat(lines[0], Join(lines[1..]));
      assert lines == [lines[0]] + lines[1..];
    }
  }

  lemma {:induction false} ReadableConcat<E(!new)>(codec: Codec<E>, a: seq<string>, b: seq<string>)
    ensures Readable(codec, a + b) == Readable(codec, a) + Readable(codec, b)
  {
    if a == [] {
      assert a + b == b;
    } else {
      assert (a + b)[1..] == a[1..] + b;
      ReadableConcat(codec, a[1..], b);
    }
  }

  // Two payloads with a newline between them hold the events of both.
  lemma ParseConcat<E(!new)>(codec: Codec<E>, a: string, b: string)
    ensures Parse(codec, a + "\n" + b) == Parse(codec, a) + Parse(codec, b)
  {
    LinesConcat(a, b);
    ReadableConcat(codec, Lines(a), Lines(b));
  }

  // ---- Round trip --------------------------------------------------------------------------

  // Which of the events the browser can read back.
  function ReadBack<E(!new)>(codec: Codec<E>, events: seq<E>): seq<E> {
    if events == [] then []
    else (match codec.read(codec.dump(events[0])) case None => [] case Some(e) => [e]) + ReadBack(codec, events[1..])
  }

  ghost predicate RoundTrips<E(!new)>(codec: Codec<E>, events: seq<E>) {
    forall i :: 0 <= i < |events| ==> codec.read(codec.dump(events[i])) == Some(events[i])
  }

  lemma {:induction false} ReadableDumped<E(!new)>(codec: Codec<E>, events: seq<E>)
    requires codec.Lawful()
    ensures Readable(codec, Dumped(codec, events)) == ReadBack(codec, events)
  {
    if events != [] {
      var lines := Dumped(codec, events);
      assert lines[1..] == Dumped(codec, events[1..]);
      assert lines[0][0] == '{';
      ReadableDumped(codec, events[1..]);
    }
  }

  // What the browser reads from a payload is what it can read of each event, in order.
  lemma ParseOfPayload<E(!new)>(codec: Codec<E>, events: seq<E>)
    requires codec.Lawful()
    ensures Parse(codec, Join(Dumped(codec, events))) == ReadBack(codec, events)
  {
    var lines := Dumped(codec, events);
    if events == [] {
      assert Lines("") == [""] && Blank("");
      assert [""][1..] == [];
      assert Join(lines) == "" && Readable(codec, [""]) == [] + Readable(codec, [""][1..]);
    } else {
      LinesOfJoin(lines);
      ReadableDumped(codec, events);
    }
  }

  lemma {:induction false} ReadBackShrinks<E(!new)>(codec: Codec<E>, events: seq<E>)
    ensures |ReadBack(codec, events)| <= |events|
  {
    if events != [] {
      ReadBackShrinks(codec, events[1..]);
    }
  }

  lemma {:induction false} ReadBackExact<E(!new)>(codec: Codec<E>, events: seq<E>)
    ensures ReadBack(codec, events) == events <==> RoundTrips(codec, events)
  {
    if events != [] {
      ReadBackExact(codec, events[1..]);
      ReadBackShrinks(codec, events[1..]);
      var head := codec.read(codec.dump(events[0]));
      var rest := ReadBack(codec, events[1..]);
      assert events == [events[0]] + events[1..];
      if ReadBack(codec, events) == events {
        assert head.Some?;
        assert ReadBack(codec, events)[0] == head.value && ReadBack(codec, events)[1..] == rest;
        forall i | 0 <= i < |events|
          ensures codec.read(codec.dump(events[i])) == Some(events[i])
        {
          if i > 0 {
            assert events[1..][i - 1] == events[i];
          }
        }
      }
      if RoundTrips(codec, events) {
        assert RoundTrips(codec, events[1..]) by {
          forall i | 0 <= i < |events[1..]|
            ensures codec.read(codec.dump(events[1..][i])) == Some(events[1..][i])
          {
            assert events[1..][i] == events[i + 1];
          }
        }
      }
    }
  }

  // The payload comes back as exactly its events if and only if the browser's reader
  // inverts the server's writer on each: a NaN, which only the server accepts, drops
  // its event.
  lemma RestoreRoundTrip<E(!new)>(codec: Codec<E>, events: seq<E>)
    requires codec.Lawful()
    ensures Parse(codec, Join(Dumped(codec, events))) == events <==> RoundTrips(codec, events)
  {
    ParseOfPayload(codec, events);
    ReadBackExact(codec, events);
  }
}
