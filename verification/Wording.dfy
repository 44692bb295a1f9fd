/** What the generated blockage commands say when they are read word by word. */
module Wording {
  import opened Blockage
  import opened Text
  import opened Wrappers

  /** The pieces of a text between the separators; there is one piece more than separators. */
  function Split(t: string, sep: char): (pieces: seq<string>)
    ensures pieces != []
  {
    if t == "" then [""]
    else
      var rest := Split(t[1..], sep);
      if t[0] == sep then [""] + rest else [[t[0]] + rest[0]] + rest[1..]
  }

  lemma {:induction false} SplitPieces(t: string, sep: char)
    ensures sep !in t ==> Split(t, sep) == [t]
  {
    if t != "" {
      SplitPieces(t[1..], sep);
      assert [t[0]] + t[1..] == t;
    }
  }

  lemma {:induction false} SplitJoined(a: string, sep: char, b: string)
    ensures Split(a + [sep] + b, sep) == Split(a, sep) + Split(b, sep)
  {
    if a == "" {
      assert (a + [sep] + b)[1..] == b;
    } else {
      assert (a + [sep] + b)[1..] == a[1..] + [sep] + b;
      SplitJoined(a[1..], sep, b);
    }
  }

  /** The number a word stands for. */
  function Signed(word: string): int {
    if word != "" && word[0] == '-' then -Value(word[1..]) else Value(word)
  }

  lemma NumberReadsBack(n: int)
    ensures Signed(Number(n)) == n && ' ' !in Number(n)
    ensures Number(n) != "" && (Number(n)[0] == '-' <==> n < 0)
  {
    DecimalReadsBack(if n >= 0 then n else -n);
    hide Decimal, Value;
    assert n < 0 ==> Number(n)[1..] == Decimal(-n);
    assert n >= 0 ==> Number(n)[0] in Number(n);
  }

  /** n is x without its fraction. */
  ghost predicate CutOff(x: real, n: int) {
    if x >= 0.0 then 0.0 <= n as real <= x < n as real + 1.0 else n as real - 1.0 < x <= n as real <= 0.0
  }

  lemma TruncateMeans(x: real)
    ensures CutOff(x, Truncate(x))
  {
  }

  /** A blockage is refused for the first of these reasons, and only for one of them. */
  lemma CheckMeans(idx: nat, s: Spec)
    ensures s.kind !in ["soft", "hard", "partial"] <==> Check(idx, s) == Some(UnsupportedKind(idx))
    ensures s.kind in ["soft", "hard", "partial"] ==>
              (s.x1 == None || s.y1 == None || s.x2 == None || s.y2 == None <==>
               Check(idx, s) == Some(MissingCoordinate(idx)))
    ensures s.kind in ["soft", "hard", "partial"] && s.x1.Some? && s.y1.Some? && s.x2.Some? && s.y2.Some? ==>
              Check(idx, s) ==
              if s.x1.value < s.x2.value && s.y1.value < s.y2.value then None else Some(InvalidBox(idx))
  {
  }

  /** The words of the command: its name, the corners of the box without fractions, lower left first, and the kind. */
  ghost predicate Says(words: seq<string>, s: Spec)
    requires Check(0, s).None?
  {
    && |words| == 8 && words[0] == COMMAND && words[1] == "-box" && words[6] == "-type" && words[7] == s.kind
    && CutOff(s.x1.value, Signed(words[2])) && CutOff(s.y1.value, Signed(words[3]))
    && CutOff(s.x2.value, Signed(words[4])) && CutOff(s.y2.value, Signed(words[5]))
  }

  lemma FourWords(a: string, b: string, c: string, d: string)
    requires ' ' !in a && ' ' !in b && ' ' !in c && ' ' !in d
    ensures Split(a + " " + b + " " + c + " " + d, ' ') == [a, b, c, d]
  {
    hide Split;
    SplitPieces(a, ' ');
    SplitPieces(b, ' ');
    SplitPieces(c, ' ');
    SplitPieces(d, ' ');
    SplitJoined(a, ' ', b);
    SplitJoined(a + " " + b, ' ', c);
    SplitJoined(a + " " + b + " " + c, ' ', d);
  }

  lemma Around(box: string, kind: string, words: seq<string>)
    requires Split(box, ' ') == words && ' ' !in kind
    ensures Split("-box " + box + " -type " + kind, ' ') == ["-box"] + words + ["-type", kind]
  {
    hide Split;
    SplitPieces("-box", ' ');
    SplitPieces("-type", ' ');
    SplitPieces(kind, ' ');
    SplitJoined("-box", ' ', box);
    SplitJoined("-box" + " " + box, ' ', "-type");
    SplitJoined("-box" + " " + box + " " + "-type", ' ', kind);
    assert "-box " + box + " -type " + kind == "-box" + " " + box + " " + "-type" + " " + kind;
  }

  lemma Indented(text: string)
    ensures Split("   " + " " + text, ' ') == ["", "", "", ""] + Split(text, ' ')
  {
    SplitPieces("", ' ');
    SplitJoined("", ' ', "");
    SplitJoined(" ", ' ', "");
    SplitJoined("  ", ' ', "");
    SplitJoined("   ", ' ', text);
    hide Split;
    assert "" + [' '] + "" == " " && " " + [' '] + "" == "  " && "  " + [' '] + "" == "   ";
  }

  lemma KindIsWord(s: Spec)
    requires Check(0, s).None?
    ensures ' ' !in s.kind && ' ' !in COMMAND
  {
  }

  function Corner(x: real): string {
    Number(Truncate(x))
  }

  lemma CornerMeans(x: real)
    ensures CutOff(x, Signed(Corner(x))) && ' ' !in Corner(x)
  {
    TruncateMeans(x);
    NumberReadsBack(Truncate(x));
    hide Number, Truncate, CutOff, Signed;
  }

  lemma OptionWords(s: Spec)
    requires Check(0, s).None?
    ensures Split(Options(s), ' ') ==
            ["-box"]
            + [Corner(s.x1.value), Corner(s.y1.value), Corner(s.x2.value), Corner(s.y2.value)]
            + ["-type", s.kind]
  {
    hide Split, Number, Truncate, CutOff, Signed;
    CornerMeans(s.x1.value);
    CornerMeans(s.y1.value);
    CornerMeans(s.x2.value);
    CornerMeans(s.y2.value);
    KindIsWord(s);
    FourWords(Corner(s.x1.value), Corner(s.y1.value), Corner(s.x2.value), Corner(s.y2.value));
    Around(Box(s), s.kind, [Corner(s.x1.value), Corner(s.y1.value), Corner(s.x2.value), Corner(s.y2.value)]);
  }

  lemma CallWords(s: Spec)
    requires Check(0, s).None?
    ensures Split(PlaceCall(s), ' ') == ["", "", "", ""] + ([COMMAND] + Split(Options(s), ' '))
  {
    KindIsWord(s);
    hide Split, Options;
    SplitPieces(COMMAND, ' ');
    SplitJoined(COMMAND, ' ', Options(s));
    Indented(COMMAND + " " + Options(s));
  }

  /** Split at its blanks, the line of a command says what was asked for, behind four blanks. */
  lemma CommandReadsBack(s: Spec)
    requires Check(0, s).None?
    ensures var words := Split(PlaceCall(s), ' ');
            |words| == 12 && words[..4] == ["", "", "", ""] && Says(words[4..], s)
  {
    CallWords(s);
    OptionWords(s);
    CornerMeans(s.x1.value);
    CornerMeans(s.y1.value);
    CornerMeans(s.x2.value);
    CornerMeans(s.y2.value);
    hide Split, Options, PlaceCall, CutOff, Signed, Corner, COMMAND;
    var corners := [Corner(s.x1.value), Corner(s.y1.value), Corner(s.x2.value), Corner(s.y2.value)];
    assert Split(PlaceCall(s), ' ')[4..] == [COMMAND] + (["-box"] + corners + ["-type", s.kind]);
  }

  /** The line before it carries the label and the reason; without a reason it is a default one with the same number. */
  lemma LabelReadsBack(idx: nat, s: Spec)
    ensures exists digits ::
              && Label(idx, Reason(idx, s)) == LABEL_START + digits + ": " + Reason(idx, s) + " ==\""
              && Value(digits) == idx && forall c | c in digits :: '0' <= c <= '9'
    ensures s.reason.Some? ==> Reason(idx, s) == s.reason.value
    ensures s.reason.None? ==>
              |Reason(idx, s)| > 13 && Reason(idx, s)[..13] == "llm_blockage_" && Value(Reason(idx, s)[13..]) == idx
  {
    DecimalReadsBack(idx);
    hide Decimal, Value;
    var digits := Decimal(idx);
    assert Label(idx, Reason(idx, s)) == LABEL_START + digits + ": " + Reason(idx, s) + " ==\"";
  }
}
