/** The multiple-choice parser of the quiz page (`processMCQs` in static/script.js): a
    line-oriented reader of the block
        Q: <question>
        A. <option>   ... D. <option>
        Answer: <letter>
    that keeps one "current question", flushes it when the next `Q: ` line arrives and
    at the end of input, and ignores every other line. */
module MCQParser {
  import opened Wrappers
  import opened Strings

  /** `correctIndex`: the character code of the uppercased answer letter minus 65, or
      JavaScript's NaN when the letter is missing (NaN is equal to nothing, itself included). */
  datatype AnswerKey = Key(index: int) | NotANumber

  /** The record `{question, options, correctIndex}` the page stores per question. */
  datatype MCQ = MCQ(question: string, options: seq<string>, correctIndex: AnswerKey)

  /** What one line contributes, tested in the order of the if-chain in `processMCQs`. */
  datatype LineKind = QuestionLine(text: string) | OptionLine(text: string) | AnswerLine(key: AnswerKey) | Ignored

  /** `correctIndex` of every fresh question, before any `Answer:` line. */
  const Unanswered: AnswerKey := Key(-1)

  /** `line.match(/^[A-D]\.\s/)`. */
  predicate IsOptionMarker(line: string)
    ensures IsOptionMarker(line) ==> !StartsWith(line, "Q: ") && !StartsWith(line, "Answer: ")
  {
    |line| >= 3 && 'A' <= line[0] <= 'D' && line[1] == '.' && IsJsSpace(line[2])
  }

  /** `rest.trim().toUpperCase().charCodeAt(0) - 65`. */
  function AnswerKeyOf(rest: string): (k: AnswerKey)
    ensures k.NotANumber? <==> AllSpace(JavaScript, rest)
  {
    TrimSpec(JavaScript, rest);
    var letter := Trim(JavaScript, rest);
    if letter == [] then NotANumber else Key(UpperFirstCodeUnit(letter[0]) - 65)
  }

  /** The kind of one line. The three patterns exclude each other, so the order of the
      tests decides nothing. */
  function Classify(line: string): (k: LineKind)
    ensures k.QuestionLine? <==> StartsWith(line, "Q: ")
    ensures k.OptionLine? <==> IsOptionMarker(line)
    ensures k.AnswerLine? <==> StartsWith(line, "Answer: ")
    ensures k.Ignored? <==> !StartsWith(line, "Q: ") && !IsOptionMarker(line) && !StartsWith(line, "Answer: ")
  {
    if StartsWith(line, "Q: ") then QuestionLine(Trim(JavaScript, line[3..]))
    else if IsOptionMarker(line) then OptionLine(Trim(JavaScript, line[3..]))
    else if StartsWith(line, "Answer: ") then AnswerLine(AnswerKeyOf(line[8..]))
    else Ignored
  }

  /** The kind of every line, in order. */
  function Kinds(lines: seq<string>): (ks: seq<LineKind>)
    ensures |ks| == |lines|
    ensures forall i :: 0 <= i < |lines| ==> ks[i] == Classify(lines[i])
  {
    if lines == [] then [] else Kinds(lines[..|lines| - 1]) + [Classify(lines[|lines| - 1])]
  }

  // ---------------------------------------------------------------------------
  // The declarative reading: one record per question line, made of the lines up to the next one.

  /** Index of the first question line, or `|ks|` when there is none. */
  function FirstQuestion(ks: seq<LineKind>): (k: nat)
    ensures k <= |ks|
    ensures k < |ks| ==> ks[k].QuestionLine?
  {
    if ks == [] || ks[0].QuestionLine? then 0 else 1 + FirstQuestion(ks[1..])
  }

  /** Every line before `FirstQuestion(ks)` is a non-question line. */
  lemma {:induction false} FirstQuestionSpec(ks: seq<LineKind>)
    ensures forall i :: 0 <= i < FirstQuestion(ks) ==> !ks[i].QuestionLine?
  {
    if ks != [] && !ks[0].QuestionLine? {
      FirstQuestionSpec(ks[1..]);
      forall i | 0 < i < FirstQuestion(ks) ensures !ks[i].QuestionLine? {
        assert ks[i] == ks[1..][i - 1];
      }
    }
  }

  /** The texts of the option lines, in encounter order. */
  function OptionTexts(ks: seq<LineKind>): seq<string> {
    if ks == [] then []
    else OptionTexts(ks[..|ks| - 1]) + if ks[|ks| - 1].OptionLine? then [ks[|ks| - 1].text] else []
  }

  /** The key of the last answer line, or `Unanswered` when there is none. */
  function LastAnswer(ks: seq<LineKind>): AnswerKey {
    if ks == [] then Unanswered
    else if ks[|ks| - 1].AnswerLine? then ks[|ks| - 1].key
    else LastAnswer(ks[..|ks| - 1])
  }

  /** The texts of the question lines, in encounter order. */
  function QuestionTexts(ks: seq<LineKind>): seq<string> {
    if ks == [] then []
    else QuestionTexts(ks[..|ks| - 1]) + if ks[|ks| - 1].QuestionLine? then [ks[|ks| - 1].text] else []
  }

  /** The record made from a question line and the lines that follow it. */
  function Record(group: seq<LineKind>): MCQ
    requires group != [] && group[0].QuestionLine?
  {
    MCQ(group[0].text, OptionTexts(group[1..]), LastAnswer(group[1..]))
  }

  /** Index of the last question line, or -1 when there is none. */
  function LastQuestion(ks: seq<LineKind>): (k: int)
    ensures -1 <= k < |ks|
    ensures k >= 0 ==> ks[k].QuestionLine?
  {
    if ks == [] then -1
    else if ks[|ks| - 1].QuestionLine? then |ks| - 1
    else LastQuestion(ks[..|ks| - 1])
  }

  /** The questions of a classified text: the last question line and every line after it
      make the last record, the lines before it make the records before; lines in front
      of the first question line make none. */
  function Questions(ks: seq<LineKind>): seq<MCQ>
    decreases |ks|
  {
    var k := LastQuestion(ks);
    if k < 0 then [] else Questions(ks[..k]) + [Record(ks[k..])]
  }

  function Parse(lines: seq<string>): seq<MCQ> {
    Questions(Kinds(lines))
  }

  /** What the whole text parses to: `mcqText.split('\n')`, then the lines. */
  function ParseText(text: string): seq<MCQ> {
    Parse(SplitLines(text))
  }

  /** The record a question line opens. */
  function Fresh(kind: LineKind): MCQ
    requires kind.QuestionLine?
  {
    MCQ(kind.text, [], Unanswered)
  }

  /** The effect of one non-question line on the question it belongs to. */
  function Absorb(q: MCQ, kind: LineKind): MCQ {
    match kind
    case OptionLine(t) => q.(options := q.options + [t])
    case AnswerLine(k) => q.(correctIndex := k)
    case _ => q
  }

  // ---------------------------------------------------------------------------
  // The parse loop.

  /** The `for (const line of lines)` loop of `processMCQs` with its final flush. */
  method ParseLines(lines: seq<string>) returns (questions: seq<MCQ>)
    ensures questions == Parse(lines)
  {
    questions := [];
    var current: Option<MCQ> := None;
    for i := 0 to |lines|
      invariant current.None? ==> questions == [] && Parse(lines[..i]) == []
      invariant current.Some? ==> questions + [current.value] == Parse(lines[..i])
    {
      var line := lines[i];
      assert lines[..i + 1] == lines[..i] + [line];
      ParseAppend(lines[..i], line);
      if StartsWith(line, "Q: ") {
        if current.Some? {
          questions := questions + [current.value];
        }
        current := Some(MCQ(Trim(JavaScript, line[3..]), [], Unanswered));
      } else if IsOptionMarker(line) {
        if current.Some? {
          current := Some(current.value.(options := current.value.options + [Trim(JavaScript, line[3..])]));
        }
      } else if StartsWith(line, "Answer: ") {
        if current.Some? {
          current := Some(current.value.(correctIndex := AnswerKeyOf(line[8..])));
        }
      }
    }
    if current.Some? {
      questions := questions + [current.value];
    }
    assert lines[..|lines|] == lines;
  }

  /** `QuestionsAppend` on lines. */
  lemma ParseAppend(prefix: seq<string>, line: string)
    ensures Classify(line).QuestionLine? ==> Parse(prefix + [line]) == Parse(prefix) + [Fresh(Classify(line))]
    ensures !Classify(line).QuestionLine? && Parse(prefix) == [] ==> Parse(prefix + [line]) == []
    ensures !Classify(line).QuestionLine? && Parse(prefix) != [] ==>
      var p := Parse(prefix);
      Parse(prefix + [line]) == p[..|p| - 1] + [Absorb(p[|p| - 1], Classify(line))]
  {
    var all := prefix + [line];
    assert all[..|prefix|] == prefix;
    assert Kinds(all) == Kinds(prefix) + [Classify(line)];
    QuestionsAppend(Kinds(prefix), Classify(line));
  }

  /** `mcqText.split('\n')` followed by the loop. */
  method ParseMCQText(text: string) returns (questions: seq<MCQ>)
    ensures questions == ParseText(text)
  {
    questions := ParseLines(SplitLines(text));
  }

  // ---------------------------------------------------------------------------
  // Growing the input by one line.

  /** `FirstQuestion` is pinned down by its contract. */
  lemma {:induction false} FirstQuestionIsFirst(ks: seq<LineKind>, k: nat)
    requires k <= |ks|
    requires forall i :: 0 <= i < k ==> !ks[i].QuestionLine?
    requires k < |ks| ==> ks[k].QuestionLine?
    ensures FirstQuestion(ks) == k
  {
    if k > 0 {
      FirstQuestionIsFirst(ks[1..], k - 1);
    }
  }

  lemma FirstQuestionAppend(a: seq<LineKind>, b: seq<LineKind>)
    ensures FirstQuestion(a + b) == if FirstQuestion(a) < |a| then FirstQuestion(a) else |a| + FirstQuestion(b)
  {
    var k := FirstQuestion(a);
    var ab := a + b;
    FirstQuestionSpec(a);
    FirstQuestionSpec(b);
    if k < |a| {
      assert ab[k] == a[k];
      FirstQuestionIsFirst(ab, k);
    } else {
      var m := FirstQuestion(b);
      if m < |b| { assert ab[|a| + m] == b[m]; }
      forall i | 0 <= i < |a| + m ensures !ab[i].QuestionLine? {
        if i >= |a| { assert ab[i] == b[i - |a|]; }
      }
      FirstQuestionIsFirst(ab, |a| + m);
    }
  }

  /** A group keeps absorbing lines until the next question line. */
  lemma RecordAppend(group: seq<LineKind>, kind: LineKind)
    requires group != [] && group[0].QuestionLine?
    ensures Record(group + [kind]) == Absorb(Record(group), kind)
  {
    var g := group + [kind];
    assert g[1..] == group[1..] + [kind];
    assert g[1..][..|g[1..]| - 1] == group[1..];
  }

  /** How the questions of `ks + [kind]` follow from those of `ks`: a question line adds a
      fresh record, any other line changes only the last record, and nothing happens before
      the first question. This is what the loop's "current question" tracks. */
  lemma QuestionsAppend(ks: seq<LineKind>, kind: LineKind)
    ensures kind.QuestionLine? ==> Questions(ks + [kind]) == Questions(ks) + [Fresh(kind)]
    ensures !kind.QuestionLine? && Questions(ks) == [] ==> Questions(ks + [kind]) == []
    ensures !kind.QuestionLine? && Questions(ks) != [] ==>
      var p := Questions(ks);
      Questions(ks + [kind]) == p[..|p| - 1] + [Absorb(p[|p| - 1], kind)]
  {
    if kind.QuestionLine? {
      QuestionsAppendQuestion(ks, kind);
    } else {
      QuestionsAppendOther(ks, kind);
    }
  }

  lemma QuestionsAppendQuestion(ks: seq<LineKind>, kind: LineKind)
    requires kind.QuestionLine?
    ensures Questions(ks + [kind]) == Questions(ks) + [Fresh(kind)]
  {
    var all := ks + [kind];
    assert all[..|all| - 1] == ks;
    assert all[|ks|..] == [kind];
    assert [kind][1..] == [];
  }

  lemma QuestionsAppendOther(ks: seq<LineKind>, kind: LineKind)
    requires !kind.QuestionLine?
    ensures Questions(ks) == [] ==> Questions(ks + [kind]) == []
    ensures Questions(ks) != [] ==>
      var p := Questions(ks);
      Questions(ks + [kind]) == p[..|p| - 1] + [Absorb(p[|p| - 1], kind)]
  {
    var all := ks + [kind];
    assert all[..|all| - 1] == ks;
    assert LastQuestion(all) == LastQuestion(ks);
    var k := LastQuestion(ks);
    if k >= 0 {
      assert all[..k] == ks[..k];
      assert all[k..] == ks[k..] + [kind];
      RecordAppend(ks[k..], kind);
    }
  }

  // ---------------------------------------------------------------------------
  // Properties of the parser.

  /** `LastQuestion` finds the last question line: none follows it, and there is none at
      all when it is -1. */
  lemma {:induction false} LastQuestionSpec(ks: seq<LineKind>)
    ensures forall i :: LastQuestion(ks) < i < |ks| ==> !ks[i].QuestionLine?
    decreases |ks|
  {
    if ks != [] && !ks[|ks| - 1].QuestionLine? {
      var init := ks[..|ks| - 1];
      LastQuestionSpec(init);
      forall i | LastQuestion(ks) < i < |ks| - 1 ensures !ks[i].QuestionLine? {
        assert ks[i] == init[i];
      }
    }
  }

  /** No question line, no questions; and every question line yields a record. */
  lemma QuestionsEmptyIff(ks: seq<LineKind>)
    ensures Questions(ks) == [] <==> forall i :: 0 <= i < |ks| ==> !ks[i].QuestionLine?
  {
    LastQuestionSpec(ks);
  }

  /** Exactly one record per question line, in encounter order, carrying that line's
      trimmed text. */
  lemma {:induction false} QuestionsInOrder(ks: seq<LineKind>)
    ensures |Questions(ks)| == |QuestionTexts(ks)|
    ensures forall i :: 0 <= i < |Questions(ks)| ==> Questions(ks)[i].question == QuestionTexts(ks)[i]
    decreases |ks|
  {
    if ks != [] {
      var init := ks[..|ks| - 1];
      var kind := ks[|ks| - 1];
      QuestionsInOrder(init);
      QuestionsInOrderStep(init, kind);
      assert ks == init + [kind];
    }
  }

  lemma QuestionsInOrderStep(init: seq<LineKind>, kind: LineKind)
    requires |Questions(init)| == |QuestionTexts(init)|
    requires forall i :: 0 <= i < |Questions(init)| ==> Questions(init)[i].question == QuestionTexts(init)[i]
    ensures |Questions(init + [kind])| == |QuestionTexts(init + [kind])|
    ensures forall i :: 0 <= i < |Questions(init + [kind])| ==>
      Questions(init + [kind])[i].question == QuestionTexts(init + [kind])[i]
  {
    var ks := init + [kind];
    assert ks[..|ks| - 1] == init;
    var p := Questions(init);
    if kind.QuestionLine? {
      QuestionsAppendQuestion(init, kind);
      assert QuestionTexts(ks) == QuestionTexts(init) + [kind.text];
    } else {
      QuestionsAppendOther(init, kind);
      assert QuestionTexts(ks) == QuestionTexts(init);
    }
  }

  /** The options of all records, read one after the other, are the option lines that
      follow the first question line: each such line lands in exactly one record, and an
      option line before any question is dropped. */
  lemma {:induction false} QuestionsKeepEveryOption(ks: seq<LineKind>)
    ensures AllOptions(Questions(ks)) == OptionTexts(ks[FirstQuestion(ks)..])
    decreases |ks|
  {
    var k := LastQuestion(ks);
    if k < 0 {
      LastQuestionSpec(ks);
      FirstQuestionIsFirst(ks, |ks|);
      assert ks[|ks|..] == [];
    } else {
      QuestionsKeepEveryOption(ks[..k]);
      KeepEveryOptionStep(ks, k);
    }
  }

  /** The step of `QuestionsKeepEveryOption` at the last question line `k`. */
  lemma KeepEveryOptionStep(ks: seq<LineKind>, k: nat)
    requires k == LastQuestion(ks)
    requires AllOptions(Questions(ks[..k])) == OptionTexts(ks[..k][FirstQuestion(ks[..k])..])
    ensures AllOptions(Questions(ks)) == OptionTexts(ks[FirstQuestion(ks)..])
  {
    var pre := ks[..k];
    var g := ks[k..];
    var f := FirstQuestion(pre);
    LastRecordOptions(ks, k);
    OptionTextsSkipQuestion(g);
    FirstQuestionBefore(ks, k);
    OptionTextsAppend(pre[f..], g);
  }

  /** The options of the last record follow those of the records before it. */
  lemma LastRecordOptions(ks: seq<LineKind>, k: nat)
    requires k == LastQuestion(ks)
    ensures AllOptions(Questions(ks)) == AllOptions(Questions(ks[..k])) + OptionTexts(ks[k..][1..])
  {
    assert Questions(ks) == Questions(ks[..k]) + [Record(ks[k..])];
    AllOptionsAppend(Questions(ks[..k]), Record(ks[k..]));
  }

  /** A question line contributes no option text. */
  lemma OptionTextsSkipQuestion(g: seq<LineKind>)
    requires g != [] && g[0].QuestionLine?
    ensures OptionTexts(g) == OptionTexts(g[1..])
  {
    assert g == [g[0]] + g[1..];
    OptionTextsAppend([g[0]], g[1..]);
    assert OptionTexts([g[0]]) == [] by { assert [g[0]][..0] == []; }
  }

  /** Cutting at a question line leaves the first question line where it was. */
  lemma FirstQuestionBefore(ks: seq<LineKind>, k: nat)
    requires k < |ks| && ks[k].QuestionLine?
    ensures ks[FirstQuestion(ks)..] == ks[..k][FirstQuestion(ks[..k])..] + ks[k..]
  {
    assert ks == ks[..k] + ks[k..];
    assert FirstQuestion(ks[k..]) == 0;
    FirstQuestionAppend(ks[..k], ks[k..]);
  }

  /** Option texts distribute over concatenation. */
  lemma {:induction false} OptionTextsAppend(a: seq<LineKind>, b: seq<LineKind>)
    ensures OptionTexts(a + b) == OptionTexts(a) + OptionTexts(b)
    decreases |b|
  {
    if b == [] {
      assert a + b == a;
    } else {
      var b' := b[..|b| - 1];
      assert a + b == (a + b') + [b[|b| - 1]];
      assert (a + b)[..|a + b| - 1] == a + b';
      OptionTextsAppend(a, b');
    }
  }

  /** The options of a list of records, concatenated. */
  function AllOptions(qs: seq<MCQ>): seq<string> {
    if qs == [] then [] else AllOptions(qs[..|qs| - 1]) + qs[|qs| - 1].options
  }

  lemma AllOptionsAppend(qs: seq<MCQ>, q: MCQ)
    ensures AllOptions(qs + [q]) == AllOptions(qs) + q.options
  {
    assert (qs + [q])[..|qs|] == qs;
  }

  /** Lines that match none of the three patterns can be deleted without effect. */
  lemma {:induction false} IgnoredLineHasNoEffect(a: seq<LineKind>, b: seq<LineKind>)
    ensures Questions(a + [Ignored] + b) == Questions(a + b)
    decreases |b|
  {
    if b == [] {
      assert a + [Ignored] + b == a + [Ignored];
      assert a + b == a;
      QuestionsAppend(a, Ignored);
      var p := Questions(a);
      if p != [] { assert p == p[..|p| - 1] + [p[|p| - 1]]; }
    } else {
      var b' := b[..|b| - 1];
      var x := b[|b| - 1];
      assert a + [Ignored] + b == (a + [Ignored] + b') + [x];
      assert a + b == (a + b') + [x];
      IgnoredLineHasNoEffect(a, b');
      QuestionsAppend(a + [Ignored] + b', x);
      QuestionsAppend(a + b', x);
    }
  }

  /** Of two consecutive answer lines the later one wins. */
  lemma LaterAnswerWins(ks: seq<LineKind>, first: AnswerKey, second: AnswerKey)
    ensures Questions(ks + [AnswerLine(first), AnswerLine(second)]) == Questions(ks + [AnswerLine(second)])
  {
    QuestionsAppend(ks, AnswerLine(first));
    assert ks + [AnswerLine(first), AnswerLine(second)] == (ks + [AnswerLine(first)]) + [AnswerLine(second)];
    QuestionsAppend(ks + [AnswerLine(first)], AnswerLine(second));
    QuestionsAppend(ks, AnswerLine(second));
  }

  /** Whatever precedes the first question line (options, answers, noise) is dropped. */
  lemma {:induction false} QuestionlessPrefixIsDropped(prefix: seq<LineKind>, rest: seq<LineKind>)
    requires forall i :: 0 <= i < |prefix| ==> !prefix[i].QuestionLine?
    ensures Questions(prefix + rest) == Questions(rest)
    decreases |rest|
  {
    if rest == [] {
      assert prefix + rest == prefix;
      QuestionsEmptyIff(prefix);
    } else {
      var init := rest[..|rest| - 1];
      var kind := rest[|rest| - 1];
      assert rest == init + [kind];
      assert prefix + rest == (prefix + init) + [kind];
      QuestionlessPrefixIsDropped(prefix, init);
      QuestionsAppend(prefix + init, kind);
      QuestionsAppend(init, kind);
    }
  }

  // ---------------------------------------------------------------------------
  // The answer letter.

  /** `Answer: b` gives 1, `Answer: Bee` gives 1 too (only the first letter counts) and
      `Answer: E` gives 4 (no such option). */
  lemma AnswerLetterExamples()
    ensures AnswerKeyOf(" b") == Key(1)
    ensures AnswerKeyOf("E") == Key(4)
    ensures AnswerKeyOf("Bee") == Key(1)
  {
    assert Trim(JavaScript, " b") == "b" by {
      assert TrimStart(JavaScript, " b") == TrimStart(JavaScript, " b"[1..]);
      assert " b"[1..] == "b";
    }
  }

  /** A blank letter gives NaN; `@`, the character before `A`, gives -1, the same as no
      answer line at all. */
  lemma AnswerNonLetterExamples()
    ensures AnswerKeyOf("  ") == NotANumber
    ensures AnswerKeyOf("") == NotANumber
    ensures AnswerKeyOf("@") == Unanswered
  {
  }

  /** The key is one of the four option indexes exactly when the trimmed letter is A-D in
      either case (or U+1E9A, whose uppercase form begins with `A`). */
  lemma AnswerKeyInRange(rest: string)
    ensures var k := AnswerKeyOf(rest);
      (k.Key? && 0 <= k.index < 4) <==>
      (var t := Trim(JavaScript, rest); t != [] && (t[0] in "ABCDabcd" || t[0] == '\U{1E9A}'))
  {
  }

  // ---------------------------------------------------------------------------
  // The format the question generator is asked for (app.py, `generate_mcqs`), read back.

  /** A question or option text the block format carries unchanged: no line feed, and
      nothing for `trim` to remove. */
  predicate Clean(t: string) {
    '\n' !in t && (t == [] || (!IsJsSpace(t[0]) && !IsJsSpace(t[|t| - 1])))
  }

  /** A record the block format can express: clean texts, at most the four options A-D,
      and either no answer or one of those four letters. */
  predicate WellFormed(q: MCQ) {
    && Clean(q.question)
    && |q.options| <= 4
    && (forall j :: 0 <= j < |q.options| ==> Clean(q.options[j]))
    && (q.correctIndex == Unanswered || (q.correctIndex.Key? && 0 <= q.correctIndex.index < 4))
  }

  function Letter(i: int): char
    requires 0 <= i < 4
  {
    ('A' as int + i) as char
  }

  /** `A. option1` ... `D. option4`. */
  function OptionBlock(options: seq<string>): seq<string>
    requires |options| <= 4
  {
    if options == [] then []
    else OptionBlock(options[..|options| - 1]) + [[Letter(|options| - 1)] + ". " + options[|options| - 1]]
  }

  /** `Q: question`, the options, and `Answer: correct_letter` when there is an answer. */
  function Block(q: MCQ): seq<string>
    requires WellFormed(q)
  {
    ["Q: " + q.question] + OptionBlock(q.options) + AnswerBlock(q.correctIndex)
  }

  function AnswerBlock(key: AnswerKey): seq<string> {
    if key.Key? && 0 <= key.index < 4 then ["Answer: " + [Letter(key.index)]] else []
  }

  /** The lines of a list of records, block after block. */
  function Render(qs: seq<MCQ>): seq<string>
    requires forall i :: 0 <= i < |qs| ==> WellFormed(qs[i])
  {
    if qs == [] then [] else Render(qs[..|qs| - 1]) + Block(qs[|qs| - 1])
  }

  /** The parser inverts the generator's format: well-formed records written as blocks,
      one line each, with a final line feed, parse back to the same records. */
  lemma {:induction false} ParseRendered(qs: seq<MCQ>)
    requires forall i :: 0 <= i < |qs| ==> WellFormed(qs[i])
    ensures ParseText(JoinLines(Render(qs) + [""])) == qs
  {
    RenderedLineKinds(qs);
    QuestionsOfRenderKinds(qs);
    var ks := KindsOfRender(qs);
    QuestionsAppendOther(ks, Ignored);
    if qs != [] { assert qs == qs[..|qs| - 1] + [qs[|qs| - 1]]; }
  }

  /** The rendered text splits back into its lines, which classify block by block, the
      final empty line being ignored. */
  lemma RenderedLineKinds(qs: seq<MCQ>)
    requires forall i :: 0 <= i < |qs| ==> WellFormed(qs[i])
    ensures Kinds(SplitLines(JoinLines(Render(qs) + [""]))) == KindsOfRender(qs) + [Ignored]
  {
    SplitRendered(qs);
    KindsRender(qs);
    KindsWithEmptyLast(Render(qs));
  }

  /** A trailing empty line classifies as ignored. */
  lemma KindsWithEmptyLast(lines: seq<string>)
    ensures Kinds(lines + [""]) == Kinds(lines) + [Ignored]
  {
    assert (lines + [""])[..|lines|] == lines;
    assert !StartsWith("", "Q: ") && !StartsWith("", "Answer: ");
  }

  lemma SplitRendered(qs: seq<MCQ>)
    requires forall i :: 0 <= i < |qs| ==> WellFormed(qs[i])
    ensures SplitLines(JoinLines(Render(qs) + [""])) == Render(qs) + [""]
  {
    RenderHasNoLineFeed(qs);
    SplitJoinWithEmptyLast(Render(qs));
  }

  /** What each rendered block classifies to. */
  function BlockKinds(q: MCQ): seq<LineKind>
    requires WellFormed(q)
  {
    [QuestionLine(q.question)] + OptionKinds(q.options) + AnswerKinds(q.correctIndex)
  }

  function AnswerKinds(key: AnswerKey): seq<LineKind> {
    if key.Key? && 0 <= key.index < 4 then [AnswerLine(key)] else []
  }

  function OptionKinds(options: seq<string>): seq<LineKind> {
    if options == [] then [] else OptionKinds(options[..|options| - 1]) + [OptionLine(options[|options| - 1])]
  }

  function KindsOfRender(qs: seq<MCQ>): seq<LineKind>
    requires forall i :: 0 <= i < |qs| ==> WellFormed(qs[i])
  {
    if qs == [] then [] else KindsOfRender(qs[..|qs| - 1]) + BlockKinds(qs[|qs| - 1])
  }

  lemma {:induction false} RenderHasNoLineFeed(qs: seq<MCQ>)
    requires forall i :: 0 <= i < |qs| ==> WellFormed(qs[i])
    ensures forall k :: 0 <= k < |Render(qs)| ==> '\n' !in Render(qs)[k]
    decreases |qs|
  {
    if qs != [] {
      var q := qs[|qs| - 1];
      RenderHasNoLineFeed(qs[..|qs| - 1]);
      assert WellFormed(q);
      OptionBlockHasNoLineFeed(q.options);
      var b := Block(q);
      forall k | 0 <= k < |b| ensures '\n' !in b[k] {
        if k == 0 {
          assert b[0] == "Q: " + q.question;
        }
      }
    }
  }

  lemma {:induction false} OptionBlockHasNoLineFeed(options: seq<string>)
    requires |options| <= 4 && forall j :: 0 <= j < |options| ==> Clean(options[j])
    ensures forall k :: 0 <= k < |OptionBlock(options)| ==> '\n' !in OptionBlock(options)[k]
    decreases |options|
  {
    if options != [] {
      OptionBlockHasNoLineFeed(options[..|options| - 1]);
      assert Clean(options[|options| - 1]);
    }
  }

  lemma KindsAppend(a: seq<string>, b: seq<string>)
    ensures Kinds(a + b) == Kinds(a) + Kinds(b)
  {
    var l := a + b;
    var ks := Kinds(l);
    forall i | 0 <= i < |ks| ensures ks[i] == (Kinds(a) + Kinds(b))[i] {
      if i < |a| {
        assert l[i] == a[i];
      } else {
        assert l[i] == b[i - |a|];
      }
    }
  }

  /** Rendered lines classify block by block. */
  lemma {:induction false} KindsRender(qs: seq<MCQ>)
    requires forall i :: 0 <= i < |qs| ==> WellFormed(qs[i])
    ensures Kinds(Render(qs)) == KindsOfRender(qs)
    decreases |qs|
  {
    if qs != [] {
      var init := qs[..|qs| - 1];
      var q := qs[|qs| - 1];
      assert WellFormed(q);
      KindsRender(init);
      KindsAppend(Render(init), Block(q));
      KindsBlock(q);
    }
  }

  /** The classified render reads back as the questions rendered. */
  lemma {:induction false} QuestionsOfRenderKinds(qs: seq<MCQ>)
    requires forall i :: 0 <= i < |qs| ==> WellFormed(qs[i])
    ensures Questions(KindsOfRender(qs)) == qs
    decreases |qs|
  {
    if qs != [] {
      var init := qs[..|qs| - 1];
      var q := qs[|qs| - 1];
      assert WellFormed(q);
      var before := KindsOfRender(init);
      assert KindsOfRender(qs) == before + BlockKinds(q);
      assert Questions(before + BlockKinds(q)) == init + [q] by {
        QuestionsOfRenderKinds(init);
        QuestionsAppendBlock(before, q);
      }
      assert qs == init + [q];
    }
  }

  lemma KindsBlock(q: MCQ)
    requires WellFormed(q)
    ensures Kinds(Block(q)) == BlockKinds(q)
  {
    var head := ["Q: " + q.question];
    var opts := OptionBlock(q.options);
    var tail := AnswerBlock(q.correctIndex);
    assert Kinds(head) == [QuestionLine(q.question)] by { ClassifyQuestion(q.question); }
    KindsOptionBlock(q.options);
    assert Kinds(tail) == AnswerKinds(q.correctIndex) by {
      if tail != [] { ClassifyAnswer(q.correctIndex.index); }
    }
    KindsAppend(head, opts);
    KindsAppend(head + opts, tail);
  }

  lemma {:induction false} KindsOptionBlock(options: seq<string>)
    requires |options| <= 4 && forall j :: 0 <= j < |options| ==> Clean(options[j])
    ensures Kinds(OptionBlock(options)) == OptionKinds(options)
    decreases |options|
  {
    if options != [] {
      var n := |options| - 1;
      KindsOptionBlock(options[..n]);
      assert Clean(options[n]);
      ClassifyOption(n, options[n]);
      KindsAppend(OptionBlock(options[..n]), [[Letter(n)] + ". " + options[n]]);
    }
  }

  /** A clean text survives `trim`. */
  lemma TrimClean(t: string)
    requires Clean(t)
    ensures Trim(JavaScript, t) == t
  {
  }

  lemma ClassifyQuestion(t: string)
    requires Clean(t)
    ensures Classify("Q: " + t) == QuestionLine(t)
  {
    var line := "Q: " + t;
    assert StartsWith(line, "Q: ");
    assert line[3..] == t;
    TrimClean(t);
  }

  lemma ClassifyOption(i: int, t: string)
    requires 0 <= i < 4 && Clean(t)
    ensures Classify([Letter(i)] + ". " + t) == OptionLine(t)
  {
    var line := [Letter(i)] + ". " + t;
    assert line[0] == Letter(i) && line[1] == '.' && line[2] == ' ';
    assert !StartsWith(line, "Q: ") by { assert line[0] != 'Q'; }
    assert line[3..] == t;
    TrimClean(t);
  }

  lemma ClassifyAnswer(i: int)
    requires 0 <= i < 4
    ensures Classify("Answer: " + [Letter(i)]) == AnswerLine(Key(i))
  {
    var line := "Answer: " + [Letter(i)];
    assert !StartsWith(line, "Q: ") by { assert line[0] != 'Q'; }
    assert !IsOptionMarker(line) by { assert line[1] == 'n'; }
    assert StartsWith(line, "Answer: ");
    assert line[8..] == [Letter(i)];
    assert Trim(JavaScript, [Letter(i)]) == [Letter(i)];
  }

  /** A block's kinds start with its one question line and then hold no other. */
  lemma QuestionsAppendBlock(ks: seq<LineKind>, q: MCQ)
    requires WellFormed(q)
    ensures Questions(ks + BlockKinds(q)) == Questions(ks) + [q]
  {
    var g := BlockKinds(q);
    var all := ks + g;
    BlockHasOneQuestion(q);
    LastQuestionOfGroup(ks, g);
    assert all[..|ks|] == ks;
    assert all[|ks|..] == g;
    RecordOfBlock(q);
  }

  /** A block opens with its question line and has no other. */
  lemma BlockHasOneQuestion(q: MCQ)
    requires WellFormed(q)
    ensures BlockKinds(q) != [] && BlockKinds(q)[0].QuestionLine?
    ensures forall i :: 1 <= i < |BlockKinds(q)| ==> !BlockKinds(q)[i].QuestionLine?
  {
    var g := BlockKinds(q);
    OptionKindsSpec(q.options);
    assert g[1..] == OptionKinds(q.options) + AnswerKinds(q.correctIndex);
    forall i | 1 <= i < |g| ensures !g[i].QuestionLine? {
      assert g[i] == g[1..][i - 1];
    }
  }

  lemma {:induction false} OptionKindsSpec(options: seq<string>)
    ensures |OptionKinds(options)| == |options|
    ensures forall j :: 0 <= j < |options| ==> OptionKinds(options)[j] == OptionLine(options[j])
    decreases |options|
  {
    if options != [] {
      OptionKindsSpec(options[..|options| - 1]);
    }
  }

  /** The last question line of `ks + g` is the head of `g` when `g` has no other. */
  lemma {:induction false} LastQuestionOfGroup(ks: seq<LineKind>, g: seq<LineKind>)
    requires g != [] && g[0].QuestionLine?
    requires forall i :: 1 <= i < |g| ==> !g[i].QuestionLine?
    ensures LastQuestion(ks + g) == |ks|
    decreases |g|
  {
    var all := ks + g;
    if |g| > 1 {
      assert all[..|all| - 1] == ks + g[..|g| - 1];
      LastQuestionOfGroup(ks, g[..|g| - 1]);
    }
  }

  lemma RecordOfBlock(q: MCQ)
    requires WellFormed(q)
    ensures Record(BlockKinds(q)) == q
  {
    var g := BlockKinds(q);
    var opts := OptionKinds(q.options);
    if q.correctIndex.Key? && 0 <= q.correctIndex.index < 4 {
      assert g[1..] == opts + [AnswerLine(q.correctIndex)];
      assert OptionTexts(g[1..]) == q.options by {
        assert (opts + [AnswerLine(q.correctIndex)])[..|opts|] == opts;
        OptionKindsTexts(q.options);
      }
    } else {
      assert g[1..] == opts;
      assert OptionTexts(g[1..]) == q.options by { OptionKindsTexts(q.options); }
      assert LastAnswer(g[1..]) == Unanswered by { OptionKindsUnanswered(q.options); }
    }
  }

  lemma {:induction false} OptionKindsTexts(options: seq<string>)
    ensures OptionTexts(OptionKinds(options)) == options
    decreases |options|
  {
    if options != [] {
      var n := |options| - 1;
      OptionKindsTexts(options[..n]);
      var ks := OptionKinds(options);
      assert ks[..|ks| - 1] == OptionKinds(options[..n]);
      assert options == options[..n] + [options[n]];
    }
  }

  lemma {:induction false} OptionKindsUnanswered(options: seq<string>)
    ensures LastAnswer(OptionKinds(options)) == Unanswered
    decreases |options|
  {
    if options != [] {
      var n := |options| - 1;
      OptionKindsUnanswered(options[..n]);
      var ks := OptionKinds(options);
      assert ks[..|ks| - 1] == OptionKinds(options[..n]);
    }
  }
}
