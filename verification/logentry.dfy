/**
 The document shipped for every scanned line (`ESLogEntry`,
 s3kibanalogs.go:48-58) and how one is built from a line of an object
 (s3kibanalogs.go:138-154).
 */
module LogEntry {
  import opened Wrappers
  import opened KeyPath
  import opened LinePattern

  /** One log document; field names follow the JSON keys of the source. */
  datatype ESLogEntry = ESLogEntry(
    date: string,
    time: string,
    uuid: string,
    logLocation: string,
    program: string,
    facility: string,
    level: string,
    message: string,
    fullLogline: string)

  const Connect: string := "Connect"
  const Kernel: string := "Kernel"

  /**
   The entry for one scanned line of the object whose key gave `key`.
   A matching line is a "Connect" entry carrying the four submatches; any
   other line is a "Kernel" entry whose structured fields stay empty. The
   raw line, the key and the uuid are stamped on either way, and the date
   is the key's date, a `T`, and the time (`EntryDate`).
   */
  function MakeEntry(key: KeyInfo, line: Line): (e: ESLogEntry)
    ensures e.program == Connect <==> Matches(line)
    ensures e.program == Kernel <==> !Matches(line)
    ensures e.program == Kernel ==> e.time == "" && e.level == "" && e.facility == "" && e.message == ""
    ensures e.program == Connect ==> Match(line) == Some(Captures(e.time, e.level, e.facility, e.message))
    ensures e.program == Connect ==> WellFormed(Captures(e.time, e.level, e.facility, e.message))
    ensures e.fullLogline == line
    ensures e.logLocation == key.location && e.uuid == key.uuid
  {
    match Match(line)
    case Some(cap) =>
      ESLogEntry(key.date + "T" + cap.time, cap.time, key.uuid, key.location,
                 Connect, cap.facility, cap.level, cap.message, line)
    case None =>
      ESLogEntry(key.date + "T", "", key.uuid, key.location, Kernel, "", "", "", line)
  }

  /** The date of an entry: the key's date, a `T`, and the time (empty for a "Kernel" entry). */
  lemma EntryDate(key: KeyInfo, line: Line)
    ensures MakeEntry(key, line).date == key.date + "T" + MakeEntry(key, line).time
    ensures MakeEntry(key, line).program == Kernel ==> MakeEntry(key, line).date == key.date + "T"
  {
    assert key.date + "T" + "" == key.date + "T";
  }

  /**
   The entries of an object's lines: exactly one per line, in line order,
   each carrying its own line and the object's key, uuid and date.
   */
  function EntriesFor(key: KeyInfo, lines: seq<Line>): (es: seq<ESLogEntry>)
    ensures |es| == |lines|
    decreases |lines|
  {
    if lines == [] then [] else [MakeEntry(key, lines[0])] + EntriesFor(key, lines[1..])
  }

  /** The entry at position i is the one built from line i. */
  lemma EntriesForAt(key: KeyInfo, lines: seq<Line>, i: nat)
    requires i < |lines|
    ensures EntriesFor(key, lines)[i] == MakeEntry(key, lines[i])
    decreases |lines|
  {
    if i > 0 {
      EntriesForAt(key, lines[1..], i - 1);
    }
  }

  /** One more line gives one more entry at the end. */
  lemma EntriesForSnoc(key: KeyInfo, lines: seq<Line>, k: nat)
    requires k < |lines|
    ensures EntriesFor(key, lines[..k + 1]) == EntriesFor(key, lines[..k]) + [MakeEntry(key, lines[k])]
  {
    var longer := EntriesFor(key, lines[..k + 1]);
    var shorter := EntriesFor(key, lines[..k]);
    forall i | 0 <= i < k + 1
      ensures longer[i] == (shorter + [MakeEntry(key, lines[k])])[i]
    {
      EntriesForAt(key, lines[..k + 1], i);
      if i < k {
        EntriesForAt(key, lines[..k], i);
      }
    }
  }

  /** The raw lines carried by a sequence of entries. */
  function RawLines(es: seq<ESLogEntry>): seq<string>
    decreases |es|
  {
    if es == [] then [] else [es[0].fullLogline] + RawLines(es[1..])
  }

  /** No line is lost or reordered: the entries give back the object's lines. */
  lemma {:induction false} RawLinesRoundTrip(key: KeyInfo, lines: seq<Line>)
    ensures RawLines(EntriesFor(key, lines)) == lines
    decreases |lines|
  {
    if lines != [] {
      var first, rest := MakeEntry(key, lines[0]), EntriesFor(key, lines[1..]);
      RawLinesRoundTrip(key, lines[1..]);
      RawLinesAppend([first], rest);
      assert [first][1..] == [];
      assert [lines[0]] + lines[1..] == lines;
    }
  }

  lemma {:induction false} RawLinesAppend(a: seq<ESLogEntry>, b: seq<ESLogEntry>)
    ensures RawLines(a + b) == RawLines(a) + RawLines(b)
    decreases |a|
  {
    if a == [] {
      assert a + b == b;
    } else {
      assert (a + b)[0] == a[0];
      assert (a + b)[1..] == a[1..] + b;
      RawLinesAppend(a[1..], b);
    }
  }

  /**
   Every entry of one object carries that object's key as its location, the
   key's uuid, and the key's date followed by `T` and its own time.
   */
  lemma ObjectEntries(key: KeyInfo, lines: seq<Line>)
    ensures forall i :: 0 <= i < |lines| ==>
      && EntriesFor(key, lines)[i].logLocation == key.location
      && EntriesFor(key, lines)[i].uuid == key.uuid
      && EntriesFor(key, lines)[i].date == key.date + "T" + EntriesFor(key, lines)[i].time
      && EntriesFor(key, lines)[i].fullLogline == lines[i]
  {
    var es := EntriesFor(key, lines);
    forall i | 0 <= i < |lines|
      ensures es[i].logLocation == key.location && es[i].uuid == key.uuid
      ensures es[i].date == key.date + "T" + es[i].time && es[i].fullLogline == lines[i]
    {
      EntriesForAt(key, lines, i);
      EntryDate(key, lines[i]);
    }
  }
}
