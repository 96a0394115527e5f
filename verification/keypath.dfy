/**
 Object keys of the log bucket have the shape `<date>/<uuid>/...`.
 This module models `strings.Split(key, "/")` and the decomposition of a
 key into the date, uuid and location stamped on every log entry of the
 object (s3kibanalogs.go:108-111).
 */
module KeyPath {
  import opened Wrappers

  const Sep: char := '/'

  /** Inverse of Split: the segments glued back together with `/`. */
  function Join(parts: seq<string>): string
    requires |parts| >= 1
    decreases |parts|
  {
    if |parts| == 1 then parts[0] else parts[0] + [Sep] + Join(parts[1..])
  }

  /** No segment contains the separator. */
  predicate Segments(parts: seq<string>)
  {
    forall i :: 0 <= i < |parts| ==> Sep !in parts[i]
  }

  /**
   Go's `strings.Split(s, "/")`: the maximal separator-free pieces of `s`,
   in order. The empty string yields one empty segment, and there is always
   one segment more than there are separators.
   */
  function Split(s: string): (parts: seq<string>)
    ensures |parts| >= 1
    ensures Segments(parts)
    ensures Join(parts) == s
    decreases |s|
  {
    if |s| == 0 then [""]
    else
      var rest := Split(s[1..]);
      if s[0] == Sep then
        assert ([""] + rest)[1..] == rest;
        [""] + rest
      else
        var parts := [[s[0]] + rest[0]] + rest[1..];
        assert parts[1..] == rest[1..];
        assert Sep !in parts[0];
        parts
  }

  /** A separator-free string is a single segment. */
  lemma {:induction false} SplitSingle(s: string)
    requires Sep !in s
    ensures Split(s) == [s]
    decreases |s|
  {
    if |s| > 0 {
      SplitSingle(s[1..]);
      assert [s[0]] + s[1..] == s;
    }
  }

  /** Splitting at the first separator peels off the leading segment. */
  lemma {:induction false} SplitCons(x: string, y: string)
    requires Sep !in x
    ensures Split(x + [Sep] + y) == [x] + Split(y)
    decreases |x|
  {
    if |x| == 0 {
      assert x + [Sep] + y == [Sep] + y;
      assert ([Sep] + y)[1..] == y;
    } else {
      var s := x + [Sep] + y;
      assert s[0] == x[0] && s[0] != Sep;
      assert s[1..] == x[1..] + [Sep] + y;
      SplitCons(x[1..], y);
      var rest := Split(s[1..]);
      assert rest[0] == x[1..] && rest[1..] == Split(y);
      assert [x[0]] + x[1..] == x;
      assert Split(s) == [[s[0]] + rest[0]] + rest[1..];
    }
  }

  /** Round trip the other way: splitting joined segments gives them back. */
  lemma {:induction false} SplitJoin(parts: seq<string>)
    requires |parts| >= 1
    requires Segments(parts)
    ensures Split(Join(parts)) == parts
    decreases |parts|
  {
    if |parts| == 1 {
      SplitSingle(parts[0]);
    } else {
      SplitJoin(parts[1..]);
      SplitCons(parts[0], Join(parts[1..]));
      assert [parts[0]] + parts[1..] == parts;
    }
  }

  /** A key has at least two segments exactly when it contains a separator. */
  lemma SplitHasTwo(s: string)
    ensures |Split(s)| >= 2 <==> Sep in s
  {
    if Sep !in s {
      SplitSingle(s);
    }
  }

  /** What the key contributes to each log entry of its object. */
  datatype KeyInfo = KeyInfo(date: string, uuid: string, location: string)

  /** Indexing segment 1 of a one-segment key is a Go runtime panic. */
  datatype KeyError = IndexOutOfRange

  /**
   Segment 0 is the date, segment 1 the uuid and the whole key the
   location. A key without a separator has a single segment, so reading
   segment 1 fails.
   */
  function DecomposeKey(key: string): (r: Result<KeyInfo, KeyError>)
    ensures r.Success? <==> Sep in key
    ensures r.Success? ==> r.value.location == key
    ensures r.Success? ==> Sep !in r.value.date && Sep !in r.value.uuid
    ensures r.Success? ==> r.value.date == Split(key)[0] && r.value.uuid == Split(key)[1]
    ensures r.Success? ==>
      var head := r.value.date + [Sep] + r.value.uuid;
      |head| <= |key| && key[..|head|] == head && (|head| == |key| || key[|head|] == Sep)
  {
    var parts := Split(key);
    SplitHasTwo(key);
    if |parts| < 2 then Failure(IndexOutOfRange)
    else
      assert parts[0] in parts && parts[1] in parts;
      var tail := Join(parts[1..]);
      assert key == parts[0] + [Sep] + tail;
      assert tail == parts[1] || tail == parts[1] + [Sep] + Join(parts[2..]) by {
        assert parts[1..][1..] == parts[2..];
      }
      Success(KeyInfo(parts[0], parts[1], key))
  }
}
