/** How `extract_text_with_azure_ocr` in app.py turns an OCR result into one string: the
    Read operation's `readResults` (pages of lines) and the older OCR call's `regions`
    (regions of lines of words) are each flattened with `+=` in nested loops and then
    stripped. `None` for the whole collection stands for a JSON body without the key the
    loop reads. A member the loops index that is missing or of the wrong type raises, and
    the function's handler then returns `None`; the loops here return `None` in the same
    cases. */
module OcrText {
  import opened Wrappers
  import opened Strings

  // ---------------------------------------------------------------------------
  // The JSON the loops walk

  /** A `text` member as the loops find it: missing (`KeyError`), present but not a string
      (`TypeError` from `+`), or a string. */
  datatype TextMember = Missing | NotString | Text(value: string)

  /** An object with a `text` member: a line of a read result, or a word of a region line. */
  datatype TextItem = TextItem(text: TextMember)

  /** A read result and its `lines` member (`None`: missing or not a list). */
  datatype ReadResult = ReadResult(lines: Option<seq<TextItem>>)

  /** A line of a region and its `words` member (`None`: missing or not a list). */
  datatype RegionLine = RegionLine(words: Option<seq<TextItem>>)

  /** A region and its `lines` member (`None`: missing or not a list). */
  datatype Region = Region(lines: Option<seq<RegionLine>>)

  predicate TextsOk(items: seq<TextItem>) {
    forall k :: 0 <= k < |items| ==> items[k].text.Text?
  }

  /** The strings of items that all have one. */
  function Texts(items: seq<TextItem>): (ts: seq<string>)
    requires TextsOk(items)
    ensures |ts| == |items|
  {
    if items == [] then [] else Texts(items[..|items| - 1]) + [items[|items| - 1].text.value]
  }

  predicate ResultOk(r: ReadResult) {
    r.lines.Some? && TextsOk(r.lines.value)
  }

  predicate ResultsOk(rs: seq<ReadResult>) {
    forall k :: 0 <= k < |rs| ==> ResultOk(rs[k])
  }

  /** The line texts of each read result. */
  function ResultTexts(rs: seq<ReadResult>): (pages: seq<seq<string>>)
    requires ResultsOk(rs)
    ensures |pages| == |rs|
  {
    if rs == [] then [] else ResultTexts(rs[..|rs| - 1]) + [Texts(rs[|rs| - 1].lines.value)]
  }

  predicate RegionLineOk(l: RegionLine) {
    l.words.Some? && TextsOk(l.words.value)
  }

  predicate RegionLinesOk(ls: seq<RegionLine>) {
    forall k :: 0 <= k < |ls| ==> RegionLineOk(ls[k])
  }

  predicate RegionOk(r: Region) {
    r.lines.Some? && RegionLinesOk(r.lines.value)
  }

  predicate RegionsOk(rs: seq<Region>) {
    forall k :: 0 <= k < |rs| ==> RegionOk(rs[k])
  }

  /** The word texts of each line. */
  function LineWords(ls: seq<RegionLine>): (lines: seq<seq<string>>)
    requires RegionLinesOk(ls)
    ensures |lines| == |ls|
  {
    if ls == [] then [] else LineWords(ls[..|ls| - 1]) + [Texts(ls[|ls| - 1].words.value)]
  }

  /** The word texts of each line of each region. */
  function RegionWords(rs: seq<Region>): (regions: seq<seq<seq<string>>>)
    requires RegionsOk(rs)
    ensures |regions| == |rs|
  {
    if rs == [] then [] else RegionWords(rs[..|rs| - 1]) + [LineWords(rs[|rs| - 1].lines.value)]
  }

  // ---------------------------------------------------------------------------
  // Read results: pages of lines

  /** Every line followed by a line feed. */
  function LinesText(lines: seq<string>): string {
    if lines == [] then "" else LinesText(lines[..|lines| - 1]) + lines[|lines| - 1] + "\n"
  }

  /** The pages' lines followed by line feeds, page after page. */
  function ReadText(pages: seq<seq<string>>): string {
    if pages == [] then "" else ReadText(pages[..|pages| - 1]) + LinesText(pages[|pages| - 1])
  }

  /** All line texts, in reading order. */
  function AllLines(pages: seq<seq<string>>): seq<string> {
    if pages == [] then [] else AllLines(pages[..|pages| - 1]) + pages[|pages| - 1]
  }

  /** The loops over `readResults` and their `lines`, then `.strip()`; `None` when a read
      result or one of its lines lacks the member the loop reads. */
  method FlattenReadResults(readResults: Option<seq<ReadResult>>) returns (text: Option<string>)
    ensures text.None? <==> readResults.Some? && !ResultsOk(readResults.value)
    ensures text.Some? ==>
      text.value == Trim(Python, if readResults.Some? then ReadText(ResultTexts(readResults.value)) else "")
  {
    var extracted := "";
    if readResults.Some? {
      var pages := readResults.value;
      for i := 0 to |pages|
        invariant ResultsOk(pages[..i])
        invariant extracted == ReadText(ResultTexts(pages[..i]))
      {
        if pages[i].lines.None? {
          assert !ResultOk(pages[i]);
          return None;
        }
        var lines := pages[i].lines.value;
        ghost var done := extracted;
        for j := 0 to |lines|
          invariant TextsOk(lines[..j])
          invariant extracted == done + LinesText(Texts(lines[..j]))
        {
          if !lines[j].text.Text? {
            assert !ResultOk(pages[i]);
            return None;
          }
          TextsSnoc(lines, j);
          extracted := extracted + lines[j].text.value + "\n";
        }
        assert lines[..|lines|] == lines;
        ResultTextsSnoc(pages, i);
      }
      assert pages[..|pages|] == pages;
    }
    text := Some(Trim(Python, extracted));
  }

  /** One more item with a text. */
  lemma TextsSnoc(items: seq<TextItem>, j: nat)
    requires j < |items| && TextsOk(items[..j]) && items[j].text.Text?
    ensures TextsOk(items[..j + 1])
    ensures Texts(items[..j + 1]) == Texts(items[..j]) + [items[j].text.value]
  {
    assert items[..j + 1][..j] == items[..j];
  }

  /** One more well-formed read result. */
  lemma ResultTextsSnoc(rs: seq<ReadResult>, i: nat)
    requires i < |rs| && ResultsOk(rs[..i]) && ResultOk(rs[i])
    ensures ResultsOk(rs[..i + 1])
    ensures ReadText(ResultTexts(rs[..i + 1])) == ReadText(ResultTexts(rs[..i])) + LinesText(Texts(rs[i].lines.value))
  {
    assert rs[..i + 1][..i] == rs[..i];
  }

  lemma {:induction false} JoinLinesSnoc(xs: seq<string>, y: string)
    requires |xs| >= 1
    ensures JoinLines(xs + [y]) == JoinLines(xs) + "\n" + y
    decreases |xs|
  {
    if |xs| > 1 {
      assert (xs + [y])[1..] == xs[1..] + [y];
      JoinLinesSnoc(xs[1..], y);
    }
  }

  /** Each line followed by a line feed is the lines joined with line feeds, plus one
      final empty piece. */
  lemma {:induction false} LinesTextIsJoin(lines: seq<string>)
    ensures LinesText(lines) == JoinLines(lines + [""])
    decreases |lines|
  {
    if lines != [] {
      var init := lines[..|lines| - 1];
      var x := lines[|lines| - 1];
      LinesTextIsJoin(init);
      assert lines + [""] == (init + [x]) + [""];
      JoinLinesSnoc(init + [x], "");
      if init != [] {
        JoinLinesSnoc(init, x);
        JoinLinesSnoc(init, "");
      } else {
        assert init + [x] == [x];
      }
    }
  }

  lemma {:induction false} LinesTextAppend(a: seq<string>, b: seq<string>)
    ensures LinesText(a + b) == LinesText(a) + LinesText(b)
    decreases |b|
  {
    if b != [] {
      var b' := b[..|b| - 1];
      assert (a + b)[..|a + b| - 1] == a + b';
      LinesTextAppend(a, b');
    } else {
      assert a + b == a;
    }
  }

  lemma {:induction false} ReadTextIsLinesText(pages: seq<seq<string>>)
    ensures ReadText(pages) == LinesText(AllLines(pages))
    decreases |pages|
  {
    if pages != [] {
      var init := pages[..|pages| - 1];
      ReadTextIsLinesText(init);
      LinesTextAppend(AllLines(init), pages[|pages| - 1]);
    }
  }

  /** Nothing is lost: split at its line feeds, the flattened text gives back every line
      text in reading order (and the empty piece after the last line feed), and the
      stripped result is that text with only whitespace removed around it. */
  lemma ReadTextKeepsEveryLine(pages: seq<seq<string>>)
    requires forall p, l :: 0 <= p < |pages| && 0 <= l < |pages[p]| ==> '\n' !in pages[p][l]
    ensures SplitLines(ReadText(pages)) == AllLines(pages) + [""]
    ensures SurroundedBySpace(Python, ReadText(pages), Trim(Python, ReadText(pages)),
                              |ReadText(pages)| - |TrimStart(Python, ReadText(pages))|)
  {
    var all := AllLines(pages);
    assert ReadText(pages) == JoinLines(all + [""]) by {
      ReadTextIsLinesText(pages);
      LinesTextIsJoin(all);
    }
    assert SplitLines(JoinLines(all + [""])) == all + [""] by {
      AllLinesHaveNoLineFeed(pages);
      SplitJoinWithEmptyLast(all);
    }
    TrimInfix(Python, ReadText(pages));
  }

  lemma {:induction false} AllLinesHaveNoLineFeed(pages: seq<seq<string>>)
    requires forall p, l :: 0 <= p < |pages| && 0 <= l < |pages[p]| ==> '\n' !in pages[p][l]
    ensures forall k :: 0 <= k < |AllLines(pages)| ==> '\n' !in AllLines(pages)[k]
    decreases |pages|
  {
    if pages != [] {
      var n := |pages| - 1;
      AllLinesHaveNoLineFeed(pages[..n]);
      var a := AllLines(pages[..n]);
      forall k | 0 <= k < |AllLines(pages)| ensures '\n' !in AllLines(pages)[k] {
        if k >= |a| { assert AllLines(pages)[k] == pages[n][k - |a|]; }
      }
    }
  }

  // ---------------------------------------------------------------------------
  // Regions: regions of lines of words

  /** Every word followed by a space. */
  function WordsText(words: seq<string>): string {
    if words == [] then "" else WordsText(words[..|words| - 1]) + words[|words| - 1] + " "
  }

  /** Every line's words, then a line feed. */
  function RegionText(lines: seq<seq<string>>): string {
    if lines == [] then "" else RegionText(lines[..|lines| - 1]) + WordsText(lines[|lines| - 1]) + "\n"
  }

  /** Every region's lines, then one more line feed. */
  function RegionsText(regions: seq<seq<seq<string>>>): string {
    if regions == [] then "" else RegionsText(regions[..|regions| - 1]) + RegionText(regions[|regions| - 1]) + "\n"
  }

  /** The loops over `regions`, their `lines` and their `words`, then `.strip()`; `None`
      when a region, line or word lacks the member the loop reads. */
  method FlattenRegions(regions: Option<seq<Region>>) returns (text: Option<string>)
    ensures text.None? <==> regions.Some? && !RegionsOk(regions.value)
    ensures text.Some? ==>
      text.value == Trim(Python, if regions.Some? then RegionsText(RegionWords(regions.value)) else "")
  {
    var extracted := "";
    if regions.Some? {
      var rs := regions.value;
      for r := 0 to |rs|
        invariant RegionsOk(rs[..r])
        invariant extracted == RegionsText(RegionWords(rs[..r]))
      {
        if rs[r].lines.None? {
          assert !RegionOk(rs[r]);
          return None;
        }
        var e := AppendRegion(extracted, rs[r].lines.value);
        if e.None? {
          assert !RegionOk(rs[r]);
          return None;
        }
        RegionWordsSnoc(rs, r);
        extracted := e.value + "\n";
      }
      assert rs[..|rs|] == rs;
    }
    text := Some(Trim(Python, extracted));
  }

  /** The loop over one region's lines: each line's words, then a line feed; `None` when
      a line or one of its words lacks the member the loop reads. */
  method AppendRegion(extracted: string, lines: seq<RegionLine>) returns (e: Option<string>)
    ensures e.None? <==> !RegionLinesOk(lines)
    ensures e.Some? ==> e.value == extracted + RegionText(LineWords(lines))
  {
    var acc := extracted;
    for l := 0 to |lines|
      invariant RegionLinesOk(lines[..l])
      invariant acc == extracted + RegionText(LineWords(lines[..l]))
    {
      if lines[l].words.None? {
        assert !RegionLineOk(lines[l]);
        return None;
      }
      var line := AppendLine(acc, lines[l].words.value);
      if line.None? {
        assert !RegionLineOk(lines[l]);
        return None;
      }
      RegionLineStep(acc, extracted, lines, l, line.value);
      acc := line.value;
    }
    assert lines[..|lines|] == lines;
    e := Some(acc);
  }

  /** One turn of the loop over a region's lines. */
  lemma RegionLineStep(acc: string, start: string, ls: seq<RegionLine>, l: nat, next: string)
    requires l < |ls| && RegionLinesOk(ls[..l]) && RegionLineOk(ls[l])
    requires acc == start + RegionText(LineWords(ls[..l]))
    requires next == acc + WordsText(Texts(ls[l].words.value)) + "\n"
    ensures RegionLinesOk(ls[..l + 1])
    ensures next == start + RegionText(LineWords(ls[..l + 1]))
  {
    LineWordsSnoc(ls, l);
  }

  /** One more well-formed region line. */
  lemma LineWordsSnoc(ls: seq<RegionLine>, l: nat)
    requires l < |ls| && RegionLinesOk(ls[..l]) && RegionLineOk(ls[l])
    ensures RegionLinesOk(ls[..l + 1])
    ensures RegionText(LineWords(ls[..l + 1])) == RegionText(LineWords(ls[..l])) + WordsText(Texts(ls[l].words.value)) + "\n"
  {
    assert ls[..l + 1][..l] == ls[..l];
  }

  /** One more well-formed region. */
  lemma RegionWordsSnoc(rs: seq<Region>, r: nat)
    requires r < |rs| && RegionsOk(rs[..r]) && RegionOk(rs[r])
    ensures RegionsOk(rs[..r + 1])
    ensures RegionsText(RegionWords(rs[..r + 1])) == RegionsText(RegionWords(rs[..r])) + RegionText(LineWords(rs[r].lines.value)) + "\n"
  {
    assert rs[..r + 1][..r] == rs[..r];
  }

  /** The body of the loop over a region's lines: each word and a space, then a line feed;
      `None` when a word lacks a string `text`. */
  method AppendLine(extracted: string, words: seq<TextItem>) returns (e: Option<string>)
    ensures e.None? <==> !TextsOk(words)
    ensures e.Some? ==> e.value == extracted + WordsText(Texts(words)) + "\n"
  {
    var acc := extracted;
    for w := 0 to |words|
      invariant TextsOk(words[..w])
      invariant acc == extracted + WordsText(Texts(words[..w]))
    {
      if !words[w].text.Text? {
        return None;
      }
      TextsSnoc(words, w);
      acc := acc + words[w].text.value + " ";
    }
    assert words[..|words|] == words;
    e := Some(acc + "\n");
  }

  lemma AllSpaceAppend(a: string, b: string)
    ensures AllSpace(Python, a + b) <==> AllSpace(Python, a) && AllSpace(Python, b)
  {
    AllSpaceSplit(Python, a + b, |a|);
    assert (a + b)[..|a|] == a;
    assert (a + b)[|a|..] == b;
  }

  /** Every text in the list is whitespace. */
  predicate Blank(texts: seq<string>) {
    forall i :: 0 <= i < |texts| ==> AllSpace(Python, texts[i])
  }

  /** Every inner list is blank. */
  predicate BlankLists(lists: seq<seq<string>>) {
    forall i :: 0 <= i < |lists| ==> Blank(lists[i])
  }

  /** Every region is blank. */
  predicate BlankRegions(regions: seq<seq<seq<string>>>) {
    forall i :: 0 <= i < |regions| ==> BlankLists(regions[i])
  }

  lemma BlankSnoc(texts: seq<string>)
    requires texts != []
    ensures Blank(texts) <==> Blank(texts[..|texts| - 1]) && AllSpace(Python, texts[|texts| - 1])
  {
    var n := |texts| - 1;
    assert forall i :: 0 <= i < n ==> texts[..n][i] == texts[i];
  }

  lemma BlankListsSnoc(lists: seq<seq<string>>)
    requires lists != []
    ensures BlankLists(lists) <==> BlankLists(lists[..|lists| - 1]) && Blank(lists[|lists| - 1])
  {
    var n := |lists| - 1;
    assert forall i :: 0 <= i < n ==> lists[..n][i] == lists[i];
  }

  lemma BlankRegionsSnoc(regions: seq<seq<seq<string>>>)
    requires regions != []
    ensures BlankRegions(regions) <==> BlankRegions(regions[..|regions| - 1]) && BlankLists(regions[|regions| - 1])
  {
    var n := |regions| - 1;
    assert forall i :: 0 <= i < n ==> regions[..n][i] == regions[i];
  }

  lemma {:induction false} WordsTextBlank(words: seq<string>)
    ensures AllSpace(Python, WordsText(words)) <==> Blank(words)
    decreases |words|
  {
    if words != [] {
      var n := |words| - 1;
      WordsTextBlank(words[..n]);
      AllSpaceAppend(WordsText(words[..n]) + words[n], " ");
      AllSpaceAppend(WordsText(words[..n]), words[n]);
      BlankSnoc(words);
    }
  }

  lemma {:induction false} RegionTextBlank(lines: seq<seq<string>>)
    ensures AllSpace(Python, RegionText(lines)) <==> BlankLists(lines)
    decreases |lines|
  {
    if lines != [] {
      var n := |lines| - 1;
      RegionTextBlank(lines[..n]);
      WordsTextBlank(lines[n]);
      AllSpaceAppend(RegionText(lines[..n]) + WordsText(lines[n]), "\n");
      AllSpaceAppend(RegionText(lines[..n]), WordsText(lines[n]));
      BlankListsSnoc(lines);
    }
  }

  lemma {:induction false} RegionsTextBlank(regions: seq<seq<seq<string>>>)
    ensures AllSpace(Python, RegionsText(regions)) <==> BlankRegions(regions)
    decreases |regions|
  {
    if regions != [] {
      var n := |regions| - 1;
      RegionsTextBlank(regions[..n]);
      RegionTextBlank(regions[n]);
      AllSpaceAppend(RegionsText(regions[..n]) + RegionText(regions[n]), "\n");
      AllSpaceAppend(RegionsText(regions[..n]), RegionText(regions[n]));
      BlankRegionsSnoc(regions);
    }
  }

  /** The flattened regions strip to nothing exactly when every word is whitespace (or
      there are no words at all). */
  lemma RegionsTextEmptyIff(regions: seq<seq<seq<string>>>)
    ensures Trim(Python, RegionsText(regions)) == [] <==> BlankRegions(regions)
  {
    TrimSpec(Python, RegionsText(regions));
    RegionsTextBlank(regions);
  }

  /** Likewise for read results: the stripped text is empty exactly when every line text
      is whitespace. */
  lemma ReadTextEmptyIff(pages: seq<seq<string>>)
    ensures Trim(Python, ReadText(pages)) == [] <==> BlankLists(pages)
  {
    TrimSpec(Python, ReadText(pages));
    ReadTextBlank(pages);
  }

  lemma {:induction false} LinesTextBlank(lines: seq<string>)
    ensures AllSpace(Python, LinesText(lines)) <==> Blank(lines)
    decreases |lines|
  {
    if lines != [] {
      var n := |lines| - 1;
      LinesTextBlank(lines[..n]);
      AllSpaceAppend(LinesText(lines[..n]) + lines[n], "\n");
      AllSpaceAppend(LinesText(lines[..n]), lines[n]);
      BlankSnoc(lines);
    }
  }

  lemma {:induction false} ReadTextBlank(pages: seq<seq<string>>)
    ensures AllSpace(Python, ReadText(pages)) <==> BlankLists(pages)
    decreases |pages|
  {
    if pages != [] {
      var n := |pages| - 1;
      ReadTextBlank(pages[..n]);
      LinesTextBlank(pages[n]);
      AllSpaceAppend(ReadText(pages[..n]), LinesText(pages[n]));
      BlankListsSnoc(pages);
    }
  }
}
