/** The phrase list of the recording page: the CSV text is trimmed and cut
    into lines, the header line is skipped, and every other line, once
    tokenised into its fields, becomes a `Phrase`. The tokeniser (a regular
    expression in the client) is a parameter of the model. */
module PhraseCsv {
  import opened Wrappers
  import opened Js

  /** `id` is what `parseInt` makes of the first field (NaN included);
      `videoSrc` is absent when the row names no video. */
  datatype Phrase = Phrase(id: Num, text: string, videoSrc: Option<string>)

  /** The third field with its quotes removed and surrounding whitespace
      trimmed, or the empty string when the row has no (or an empty) third
      field. */
  function RawVideoSrc(values: seq<string>): (raw: string)
    ensures |values| < 3 || values[2] == "" ==> raw == ""
    ensures |values| >= 3 && values[2] != "" ==> raw == Trim(RemoveAll(values[2], '"'))
    ensures '"' !in raw
    ensures raw == [] || (!IsWhitespace(raw[0]) && !IsWhitespace(raw[|raw| - 1]))
  {
    if |values| > 2 && values[2] != "" then
      TrimIsInfix(RemoveAll(values[2], '"'));
      Trim(RemoveAll(values[2], '"'))
    else ""
  }

  /** A path written without quotes and without surrounding whitespace is
      taken as it is. */
  lemma PlainVideoSrc(values: seq<string>)
    requires |values| >= 3 && values[2] != "" && '"' !in values[2]
    requires !IsWhitespace(values[2][0]) && !IsWhitespace(values[2][|values[2]| - 1])
    ensures RawVideoSrc(values) == values[2]
  {
    assert RemoveAll(values[2], '"') == values[2];
  }

  /** Video-path normalisation: no video for an empty path, absolute `http`
      addresses kept as they are, anything else appended to the public URL
      after a `/`, one leading `/` of the path being dropped first. */
  function NormalizeVideoSrc(raw: string, publicUrl: string): (r: Option<string>)
    ensures r.None? <==> raw == ""
    ensures raw != "" && StartsWith(raw, "http") ==> r == Some(raw)
    ensures raw != "" && !StartsWith(raw, "http") ==>
      r == Some(publicUrl + "/" + (if StartsWith(raw, "/") then raw[1..] else raw))
  {
    if raw == "" then None
    else if StartsWith(raw, "http") then Some(raw)
    else
      var r := publicUrl + (if StartsWith(raw, "/") then "" else "/") + raw;
      assert StartsWith(raw, "/") ==> r == publicUrl + "/" + raw[1..] by {
        if StartsWith(raw, "/") {
          assert raw == "/" + raw[1..];
        }
      }
      Some(r)
  }

  /** `parseInt(values[0] || '0', 10)`: the first field read as a number,
      0 when the field is absent or empty. */
  function RowId(values: seq<string>): (id: Num)
    ensures |values| == 0 || values[0] == "" ==> id == Int(0)
    ensures |values| > 0 && values[0] != "" ==> id == ParseInt(values[0])
  {
    ParseOneDigit('0');
    ParseInt(if |values| > 0 && values[0] != "" then values[0] else "0")
  }

  /** The second field without its quotes, or the empty string. */
  function RowText(values: seq<string>): (text: string)
    ensures |values| >= 2 && values[1] != "" ==> text == RemoveAll(values[1], '"')
    ensures '"' !in text
    ensures |values| < 2 || values[1] == "" ==> text == ""
    ensures |values| >= 2 && values[1] != "" && '"' !in values[1] ==> text == values[1]
  {
    if |values| > 1 && values[1] != "" then RemoveAll(values[1], '"') else ""
  }

  /** A quoted field is read as the text between its quotes. */
  lemma QuotedText(values: seq<string>, x: string)
    requires |values| >= 2 && values[1] == ['"'] + x + ['"'] && '"' !in x
    ensures RowText(values) == x
  {
    RemoveAllAppend(['"'] + x, ['"'], '"');
    RemoveAllAppend(['"'], x, '"');
  }

  /** One CSV row, given as its fields, mapped to a phrase. */
  function ParseRow(values: seq<string>, publicUrl: string): (p: Phrase)
    ensures p.id == RowId(values)
    ensures p.text == RowText(values)
    ensures p.videoSrc == NormalizeVideoSrc(RawVideoSrc(values), publicUrl)
    ensures |values| == 0 || values[0] == "" ==> p.id == Int(0)
    ensures |values| > 0 && values[0] != "" ==> p.id == ParseInt(values[0])
    ensures '"' !in p.text
    ensures |values| < 2 || values[1] == "" ==> p.text == ""
    ensures |values| >= 2 && values[1] != "" && '"' !in values[1] ==> p.text == values[1]
    ensures |values| < 3 ==> p.videoSrc == None
    ensures p.videoSrc.Some? ==> p.videoSrc.value != "" && '"' !in RawVideoSrc(values)
  {
    Phrase(RowId(values), RowText(values), NormalizeVideoSrc(RawVideoSrc(values), publicUrl))
  }

  /** The lines of the CSV text once trimmed: one more than its line breaks,
      none holding a line break, and together, rejoined, the trimmed text. */
  function Lines(csvText: string): (lines: seq<string>)
    ensures |lines| == Count('\n', Trim(csvText)) + 1
    ensures forall k :: 0 <= k < |lines| ==> '\n' !in lines[k]
    ensures Join(lines, '\n') == Trim(csvText)
  {
    JoinSplit(Trim(csvText), '\n');
    Split(Trim(csvText), '\n')
  }

  /** `s.map(f)`: f applied to every element, in order. */
  function Map<A, B>(f: A -> B, s: seq<A>): (r: seq<B>)
    ensures |r| == |s|
    ensures forall k :: 0 <= k < |s| ==> r[k] == f(s[k])
  {
    if s == [] then [] else [f(s[0])] + Map(f, s[1..])
  }

  /** All phrases of a CSV text: one per line after the header, in order, so
      as many as the trimmed text has line breaks. */
  function ParsePhrases(csvText: string, tokenize: string -> seq<string>, publicUrl: string)
    : (phrases: seq<Phrase>)
    ensures |phrases| == |Lines(csvText)| - 1
    ensures |phrases| == Count('\n', Trim(csvText))
    ensures forall k :: 0 <= k < |phrases| ==>
      phrases[k] == ParseRow(tokenize(Lines(csvText)[k + 1]), publicUrl)
    ensures forall k :: 0 <= k < |phrases| ==> '"' !in phrases[k].text
  {
    Map(line => ParseRow(tokenize(line), publicUrl), Lines(csvText)[1..])
  }

  /** A text holding only a header line gives no phrase at all. */
  lemma HeaderOnly(header: string, tokenize: string -> seq<string>, publicUrl: string)
    requires '\n' !in header
    ensures ParsePhrases(header, tokenize, publicUrl) == []
  {
    TrimIsInfix(header);
    SplitWithoutSeparator(Trim(header), '\n');
  }

  /** Every character of `Trim(s)` comes from `s`. */
  lemma TrimIsInfix(s: string)
    ensures forall c :: c in Trim(s) ==> c in s
  {
    var a := TrimStart(s);
    var b := TrimEnd(a);
    assert Trim(s) == b;
    forall c | c in b
      ensures c in s
    {
      var k :| 0 <= k < |b| && b[k] == c;
      assert a[k] == c;
      assert s[|s| - |a| + k] == c;
    }
  }
}
