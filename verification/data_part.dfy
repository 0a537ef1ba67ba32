/** One named field of the telemetry line: a name and an inclusive range of
    character positions, and the text it extracts from a data line. */
module DataParts {
  import opened PyText

  /** A field after construction: `lower` and `upper` are the inclusive
      first and last character positions. */
  datatype DataPart = DataPart(name: string, lower: int, upper: int)

  /** The invariant construction establishes. */
  predicate Ordered(p: DataPart) {
    p.lower <= p.upper
  }

  /** Whether construction prints its index-order correction notice. */
  predicate NeedsSwap(lowerBounds: int, upperBounds: int) {
    lowerBounds > upperBounds
  }

  /** Construction with `verify_index_order`: the bounds are swapped when the
      given lower bound exceeds the given upper bound, and kept otherwise. */
  function NewDataPart(name: string, lowerBounds: int, upperBounds: int): (p: DataPart)
    ensures Ordered(p)
    ensures p.name == name
    ensures p.lower == if NeedsSwap(lowerBounds, upperBounds) then upperBounds else lowerBounds
    ensures p.upper == if NeedsSwap(lowerBounds, upperBounds) then lowerBounds else upperBounds
  {
    if lowerBounds > upperBounds then DataPart(name, upperBounds, lowerBounds)
    else DataPart(name, lowerBounds, upperBounds)
  }

  /** Normalising keeps the two bounds, only ever reorders them, and leaves an
      already ordered part unchanged, so doing it twice is doing it once. */
  lemma NormaliseIdempotent(name: string, lowerBounds: int, upperBounds: int)
    ensures var p := NewDataPart(name, lowerBounds, upperBounds);
            && NewDataPart(p.name, p.lower, p.upper) == p
            && multiset{p.lower, p.upper} == multiset{lowerBounds, upperBounds}
            && (Ordered(DataPart(name, lowerBounds, upperBounds)) <==> p == DataPart(name, lowerBounds, upperBounds))
  {
  }

  /** The section of `data` a part selects: Python's `data[lower:upper + 1]`,
      which clips out-of-range bounds instead of failing. */
  function Extract(p: DataPart, data: string): (r: string)
    ensures |r| <= |data|
    ensures 0 <= p.lower <= p.upper ==>
              var lo := if p.lower < |data| then p.lower else |data|;
              var hi := if p.upper + 1 < |data| then p.upper + 1 else |data|;
              r == data[lo..hi]
    ensures p.upper < 0 && p.upper + 1 + |data| <= 0 ==> r == []
  {
    PySlice(data, p.lower, p.upper + 1)
  }

  /** `get_data_string`: the line shown to the user for this part. */
  function GetDataString(p: DataPart, data: string): (r: string)
    ensures |r| == |p.name| + 2 + |Extract(p, data)|
    ensures r[..|p.name|] == p.name
    ensures r[|p.name|..|p.name| + 2] == ": "
    ensures r[|p.name| + 2..] == Extract(p, data)
  {
    p.name + ": " + Extract(p, data)
  }

  /** For a part with non-negative ordered bounds, the extracted text is the
      characters at positions `lower` to `upper` inclusive that `data`
      actually has: its length is `min(upper + 1, |data|) - min(lower, |data|)`
      and position `k` of it is position `lower + k` of `data`. */
  lemma ExtractClips(p: DataPart, data: string)
    requires 0 <= p.lower <= p.upper
    ensures var hi := if p.upper + 1 < |data| then p.upper + 1 else |data|;
            var lo := if p.lower < |data| then p.lower else |data|;
            |Extract(p, data)| == hi - lo
    ensures forall k :: 0 <= k < |Extract(p, data)| ==> Extract(p, data)[k] == data[p.lower + k]
    ensures p.upper < |data| ==> Extract(p, data) == data[p.lower..p.upper + 1]
    ensures |data| <= p.lower ==> Extract(p, data) == []
  {
  }

  /** The extracted text is, position by position, the characters of `data`
      whose index lies in the part's range, after Python's counting from the
      end for negative bounds. */
  lemma ExtractSelects(p: DataPart, data: string)
    ensures Extract(p, data) == Pick(data, FromEnd(p.lower, |data|), FromEnd(p.upper + 1, |data|))
  {
    PySliceSelects(data, p.lower, p.upper + 1);
  }

  /** The worked example of the configuration file's header: positions 1 to
      8 of `test sentence` are `est sent`. */
  lemma ExtractExample(name: string)
    ensures Extract(DataPart(name, 1, 8), "test sentence") == "est sent"
  {
  }
}
