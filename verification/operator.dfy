/** `Operator.display_items` and the quit test of the interactive loop, with
    the console replaced by returned lines. */
module Operator {
  import opened PyText
  import opened DataParts

  /** The item lines `display_items` prints between its two rules: one line
      per part, in list order, each naming the part and showing its section
      of `data`. */
  function Display(parts: seq<DataPart>, data: string): (lines: seq<string>)
    ensures |lines| == |parts|
    ensures forall k :: 0 <= k < |parts| ==> lines[k] == GetDataString(parts[k], data)
    decreases |parts|
  {
    if |parts| == 0 then []
    else [GetDataString(parts[0], data)] + Display(parts[1..], data)
  }

  /** Showing two lists of parts one after the other shows the same lines as
      showing their concatenation. */
  lemma DisplayAppend(a: seq<DataPart>, b: seq<DataPart>, data: string)
    ensures Display(a + b, data) == Display(a, data) + Display(b, data)
  {
  }

  /** Each displayed line is the part's name, a colon and a space, then the
      characters at the part's positions that `data` has, after counting
      negative positions from the end. */
  lemma DisplayLine(parts: seq<DataPart>, data: string, k: int)
    requires 0 <= k < |parts|
    ensures var line, p := Display(parts, data)[k], parts[k];
            && line[..|p.name|] == p.name
            && line[|p.name|..|p.name| + 2] == ": "
            && line[|p.name| + 2..] == Pick(data, FromEnd(p.lower, |data|), FromEnd(p.upper + 1, |data|))
  {
    ExtractSelects(parts[k], data);
  }

  /** For non-negative ordered bounds, a displayed line is as long as the
      name, the colon and space, and the part of the range `data` covers. */
  lemma DisplayLineLength(parts: seq<DataPart>, data: string, k: int)
    requires 0 <= k < |parts| && 0 <= parts[k].lower <= parts[k].upper
    ensures var p := parts[k];
            var hi := if p.upper + 1 < |data| then p.upper + 1 else |data|;
            var lo := if p.lower < |data| then p.lower else |data|;
            |Display(parts, data)[k]| == |p.name| + 2 + hi - lo
  {
    ExtractClips(parts[k], data);
  }

  /** Whether `t` spells `q`, `quit` or `exit` in any mix of upper and lower
      case, letter by letter. */
  predicate QuitSpelling(t: string) {
    || (|t| == 1 && t[0] in "qQ")
    || (|t| == 4 && t[0] in "qQ" && t[1] in "uU" && t[2] in "iI" && t[3] in "tT")
    || (|t| == 4 && t[0] in "eE" && t[1] in "xX" && t[2] in "iI" && t[3] in "tT")
  }

  /** The loop's exit test: the entered text, stripped and lower-cased, is
      `q`, `quit` or `exit`. It accepts exactly the case variants of the
      three words, once the surrounding whitespace is gone. */
  function IsQuit(entered: string): (quit: bool)
    ensures quit <==> QuitSpelling(Strip(entered))
  {
    var c := Lower(Strip(entered));
    c == "q" || c == "quit" || c == "exit"
  }

  /** The case of the letters and the whitespace around the word do not
      matter. */
  lemma QuitExample()
    ensures IsQuit(" QUIT\t")
  {
    StripPadded(" ", "QUIT", "\t");
    assert " " + "QUIT" + "\t" == " QUIT\t";
  }

  /** Anything else typed with the word keeps the loop going. */
  lemma NotQuitExample()
    ensures !IsQuit("quit now")
  {
    StripStripped("quit now");
  }

  /** Whitespace typed around the word does not change the decision. */
  lemma QuitIgnoresPadding(pre: string, s: string, post: string)
    requires AllSpace(pre) && AllSpace(post)
    ensures IsQuit(pre + s + post) == IsQuit(s)
  {
    StripIgnoresPadding(pre, s, post);
  }

  /** What one round of the loop does with an entered line. */
  datatype Reply = Quit | Show(lines: seq<string>)

  /** One round of the loop: the entered line is stripped, then either ends
      the loop or is shown through every part. */
  function HandleInput(parts: seq<DataPart>, entered: string): (r: Reply)
    ensures r.Quit? <==> QuitSpelling(Strip(entered))
    ensures r.Show? ==> |r.lines| == |parts|
    ensures r.Show? ==> forall k :: 0 <= k < |parts| ==> r.lines[k] == GetDataString(parts[k], Strip(entered))
  {
    if IsQuit(entered) then Quit else Show(Display(parts, Strip(entered)))
  }

  /** Positions count from the first character that is not whitespace: any
      whitespace typed around the data changes nothing that is shown. */
  lemma HandleInputIgnoresPadding(parts: seq<DataPart>, pre: string, s: string, post: string)
    requires AllSpace(pre) && AllSpace(post)
    ensures HandleInput(parts, pre + s + post) == HandleInput(parts, s)
  {
    StripIgnoresPadding(pre, s, post);
  }
}
