/** The cumulative blockage script: every call reads the previous script back and writes a longer one. */
module Blockage {
  import opened Searching
  import opened Text
  import opened Wrappers

  const MARKER := "set ::INJECT_PLACEDESIGN_BEFORE {"
  const COMMAND := "createPlaceBlockage"

  const LABEL_START := "    puts \"== INJECTED blockage "
  const HEADER_START := "# Auto-generated " + "agent_args.tcl for run "
  const HEADER_END := "\n# This file is " + "sourced by place.tcl " + "before inject_hook.tcl\n"
                      + "# Contains cumulative " + "blockages from all " + "previous runs\n"

  /** A requested blockage; the kind is trimmed and in lower case, absent coordinates are None. */
  datatype Spec = Spec(kind: string, x1: Option<real>, y1: Option<real>, x2: Option<real>, y2: Option<real>,
                       reason: Option<string>)

  datatype Error = NoSpecs | UnsupportedKind(index: nat) | MissingCoordinate(index: nat) | InvalidBox(index: nat)

  datatype Outcome = Written(script: string) | Refused(error: Error)

  function Check(idx: nat, s: Spec): Option<Error> {
    if s.kind != "soft" && s.kind != "hard" && s.kind != "partial" then Some(UnsupportedKind(idx))
    else if s.x1.None? || s.y1.None? || s.x2.None? || s.y2.None? then Some(MissingCoordinate(idx))
    else if s.x2.value <= s.x1.value || s.y2.value <= s.y1.value then Some(InvalidBox(idx))
    else None
  }

  /** Conversion to an integer cuts off towards zero. */
  function Truncate(x: real): int {
    if x >= 0.0 then x.Floor else -((-x).Floor)
  }

  function Number(n: int): string {
    if n >= 0 then Decimal(n) else "-" + Decimal(-n)
  }

  function Reason(idx: nat, s: Spec): string {
    if s.reason.Some? then s.reason.value else "llm_blockage_" + Decimal(idx)
  }

  function Box(s: Spec): string
    requires Check(0, s).None?
  {
    Number(Truncate(s.x1.value)) + " " + Number(Truncate(s.y1.value)) + " "
    + Number(Truncate(s.x2.value)) + " " + Number(Truncate(s.y2.value))
  }

  function Options(s: Spec): string
    requires Check(0, s).None?
  {
    "-box " + Box(s) + " -type " + s.kind
  }

  function PlaceCall(s: Spec): string
    requires Check(0, s).None?
  {
    "   " + " " + (COMMAND + " " + Options(s))
  }

  function Label(idx: nat, reason: string): string {
    LABEL_START + Decimal(idx) + ":" + " " + (reason + " " + "==\"")
  }

  function Command(idx: nat, s: Spec): string
    requires Check(0, s).None?
  {
    Label(idx, Reason(idx, s)) + "\n" + PlaceCall(s)
  }

  ghost predicate AllOk(specs: seq<Spec>) {
    forall i | 0 <= i < |specs| :: Check(0, specs[i]).None?
  }

  /** The commands for some blockages, labelled from idx on. */
  ghost function Commands(idx: nat, specs: seq<Spec>): seq<string>
    requires AllOk(specs)
  {
    seq(|specs|, i requires 0 <= i < |specs| => Command(idx + i, specs[i]))
  }

  /** Commands joined by line ends, with one more at the end. */
  function Lines(cmds: seq<string>): string {
    if cmds == [] then "" else Lines(cmds[..|cmds| - 1]) + cmds[|cmds| - 1] + "\n"
  }

  function Header(runId: string): string {
    HEADER_START + runId + HEADER_END
  }

  function Script(runId: string, block: string): string {
    Header(runId) + MARKER + (block + "}\n")
  }

  /** What stands between the marker and the first closing brace after it. */
  function Extract(script: string): Option<string> {
    match Find(script, MARKER)
    case None => None
    case Some(i) =>
      FindBound(script, MARKER);
      var rest := script[i + |MARKER|..];
      match Find(rest, "}")
      case None => None
      case Some(j) => FindBound(rest, "}"); Some(rest[..j])
  }

  lemma {:induction false} FindBound(t: string, w: string)
    ensures Find(t, w).Some? ==> Find(t, w).value + |w| <= |t|
    decreases |t|
  {
    if |t| >= |w| && t[..|w|] != w && t != "" {
      FindBound(t[1..], w);
    }
  }

  /** The block a call inherits, and how many blockages it counts in it. */
  function Inherited(prev: Option<string>): (seq<string>, nat) {
    if prev.None? || Extract(prev.value).None? then ([], 0)
    else ([Strip(Extract(prev.value).value)], Count(Extract(prev.value).value, COMMAND))
  }

  /** The script for some blockages on top of a previous one: the inherited text, and commands labelled on from it. */
  ghost function NextScript(runId: string, specs: seq<Spec>, prev: Option<string>): string
    requires AllOk(specs)
  {
    var (block, count) := Inherited(prev);
    Script(runId, "\n" + Lines(block + Commands(count + 1, specs)))
  }

  /** Write the script for some blockages on top of a previous script; the first invalid blockage stops it. */
  method AddBlockages(runId: string, specs: seq<Spec>, prev: Option<string>) returns (r: Outcome)
    ensures r.Written? <==> specs != [] && AllOk(specs)
    ensures r.Written? ==> r.script == NextScript(runId, specs, prev)
    ensures r.Refused? && specs != [] ==>
              exists i | 0 <= i < |specs| ::
                Check(Inherited(prev).1 + 1 + i, specs[i]) == Some(r.error) && AllOk(specs[..i])
    ensures specs == [] ==> r == Refused(NoSpecs)
  {
    hide Command, Script, Inherited, Lines;
    if specs == [] {
      return Refused(NoSpecs);
    }
    var (inherited, count) := Inherited(prev);
    var allCmds := inherited;
    for i := 0 to |specs|
      invariant AllOk(specs[..i])
      invariant allCmds == inherited + Commands(count + 1, specs[..i])
    {
      var error := Check(count + 1 + i, specs[i]);
      if error.Some? {
        assert !AllOk(specs);
        return Refused(error.value);
      }
      assert specs[..i + 1] == specs[..i] + [specs[i]];
      assert Commands(count + 1, specs[..i + 1])
          == Commands(count + 1, specs[..i]) + [Command(count + 1 + i, specs[i])];
      allCmds := allCmds + [Command(count + 1 + i, specs[i])];
    }
    assert specs[..|specs|] == specs;
    r := Written(Script(runId, "\n" + Lines(allCmds)));
  }

  // ----- the commands as text

  lemma {:induction false} DecimalDigits(n: nat)
    ensures Decimal(n) != "" && forall c | c in Decimal(n) :: c in "0123456789"
  {
    if n >= 10 {
      DecimalDigits(n / 10);
    }
  }

  /** The parts of a command around its reason hold no brace, and the command name exactly once. */
  lemma CommandText(idx: nat, s: Spec)
    requires Check(0, s).None?
    ensures '}' in Command(idx, s) <==> '}' in Reason(idx, s)
    ensures Count(Command(idx, s), COMMAND) == 1 + Count(Reason(idx, s), COMMAND)
  {
    hide Reason, Decimal, Number, Truncate, Count, Find;
    LabelText(idx, Reason(idx, s));
    CallText(s);
    hide Label, PlaceCall;
    assert Command(idx, s) == Label(idx, Reason(idx, s)) + ['\n'] + PlaceCall(s);
    CountSplit(Label(idx, Reason(idx, s)), '\n', PlaceCall(s), COMMAND);
  }

  lemma CommandName()
    ensures 'P' in COMMAND && ' ' !in COMMAND && '\n' !in COMMAND && Lacks(COMMAND, '}') && '}' !in MARKER
  {
    assert COMMAND[6] == 'P';
  }

  lemma CountBetween(pre: string, text: string, post: string, w: string)
    requires 'P' in w && ' ' !in w && Lacks(pre, 'P') && Lacks(post, 'P')
    ensures Count(pre + " " + (text + " " + post), w) == Count(text, w)
  {
    CountSplit(pre, ' ', text + " " + post, w);
    CountSplit(text, ' ', post, w);
    CountAbsent(pre, 'P', w);
    CountAbsent(post, 'P', w);
  }

  lemma LabelLiterals()
    ensures Lacks(LABEL_START, 'P') && Lacks(":", 'P') && Lacks("==\"", 'P')
    ensures Lacks(LABEL_START, '}') && Lacks(":", '}') && Lacks("==\"", '}')
  {
  }

  lemma LabelText(idx: nat, reason: string)
    ensures Lacks(Label(idx, reason), '}') <==> Lacks(reason, '}')
    ensures Count(Label(idx, reason), COMMAND) == Count(reason, COMMAND)
  {
    hide Count, Decimal, Lacks;
    NumberText(idx);
    LacksConcat('P');
    LacksConcat('}');
    SpaceLiterals();
    LabelLiterals();
    CommandName();
    CountBetween(LABEL_START + Decimal(idx) + ":", reason, "==\"", COMMAND);
  }

  lemma NumberText(n: int)
    ensures Lacks(Number(n), 'P') && Lacks(Number(n), '}')
  {
    DecimalDigits(if n >= 0 then n else -n);
  }

  lemma BoxText(s: Spec)
    requires Check(0, s).None?
    ensures Lacks(Box(s), 'P') && Lacks(Box(s), '}')
  {
    hide Lacks, Number, Truncate;
    NumberText(Truncate(s.x1.value));
    NumberText(Truncate(s.y1.value));
    NumberText(Truncate(s.x2.value));
    NumberText(Truncate(s.y2.value));
    LacksConcat('P');
    LacksConcat('}');
    SpaceLiterals();
  }

  lemma SpaceLiterals()
    ensures Lacks(" ", 'P') && Lacks(" ", '}') && Lacks("   ", 'P') && Lacks("   ", '}')
  {
  }

  lemma CallText(s: Spec)
    requires Check(0, s).None?
    ensures Lacks(PlaceCall(s), '}') && Count(PlaceCall(s), COMMAND) == 1
  {
    hide Options, Count, Lacks;
    OptionsText(s);
    LacksConcat('}');
    SpaceLiterals();
    CommandName();
    CountItself(COMMAND);
    CountBetween("   ", COMMAND, Options(s), COMMAND);
  }

  lemma OptionLiterals()
    ensures Lacks("-box ", 'P') && Lacks(" -type ", 'P') && Lacks("soft", 'P') && Lacks("hard", 'P')
    ensures Lacks("partial", 'P')
    ensures Lacks("-box ", '}') && Lacks(" -type ", '}')
    ensures Lacks("soft", '}') && Lacks("hard", '}') && Lacks("partial", '}')
  {
  }

  lemma OptionsText(s: Spec)
    requires Check(0, s).None?
    ensures Lacks(Options(s), 'P') && Lacks(Options(s), '}')
  {
    hide Box, Lacks;
    BoxText(s);
    LacksConcat('P');
    LacksConcat('}');
    OptionLiterals();
  }

  lemma CountItself(w: string)
    requires w != ""
    ensures Count(w, w) == 1
  {
    assert w[..|w|] == w;
  }

  // ----- the block

  /** The commands for all blockages, labelled 1, 2, 3, ... */
  ghost function Full(specs: seq<Spec>): string
    requires AllOk(specs)
  {
    Lines(Commands(1, specs))
  }

  function Reasons(specs: seq<Spec>): seq<string> {
    seq(|specs|, i requires 0 <= i < |specs| => Reason(i + 1, specs[i]))
  }

  lemma FullSnoc(specs: seq<Spec>)
    requires AllOk(specs) && specs != []
    ensures AllOk(specs[..|specs| - 1]) && Reasons(specs)[..|specs| - 1] == Reasons(specs[..|specs| - 1])
    ensures Full(specs) == Full(specs[..|specs| - 1]) + Command(|specs|, specs[|specs| - 1]) + "\n"
  {
    hide Command, Reason;
    assert Commands(1, specs)[..|specs| - 1] == Commands(1, specs[..|specs| - 1]);
  }

  lemma CommandShape(idx: nat, s: Spec)
    requires Check(0, s).None?
    ensures var c := Command(idx, s);
            |c| >= 6 && c[..4] == "    " && c[4] == 'p' && !IsSpace(c[|c| - 1])
  {
    hide Reason, Box, Decimal;
    var c, l := Command(idx, s), Label(idx, Reason(idx, s));
    assert l[..4] == "    " && l[4] == 'p' && |l| > 20;
    assert c[..4] == l[..4] && c[4] == l[4];
    assert c[|c| - 1] == s.kind[|s.kind| - 1];
  }

  lemma {:induction false} FullShape(specs: seq<Spec>)
    requires AllOk(specs) && specs != []
    ensures var b := Full(specs);
            |b| >= 6 && b[..4] == "    " && b[4] == 'p' && b[|b| - 1] == '\n' && !IsSpace(b[|b| - 2])
    decreases |specs|
  {
    hide Full, Command;
    FullSnoc(specs);
    var front, n := specs[..|specs| - 1], |specs|;
    var c := Command(n, specs[n - 1]);
    CommandShape(n, specs[n - 1]);
    if front == [] {
      NothingFull();
      assert Full(specs) == c + "\n";
    } else {
      FullShape(front);
      assert Full(specs)[..4] == Full(front)[..4];
    }
  }

  lemma NothingFull()
    ensures Full([]) == ""
  {
  }

  /**
    The block holds a brace exactly if a reason does, and the command name once per blockage unless a reason
    mentions it.
   */
  lemma {:induction false} FullText(specs: seq<Spec>)
    requires AllOk(specs)
    ensures '}' in Full(specs) <==> exists r | r in Reasons(specs) :: '}' in r
    ensures Count(Full(specs), COMMAND) >= |specs|
    ensures Count(Full(specs), COMMAND) == |specs| <==> forall r | r in Reasons(specs) :: Count(r, COMMAND) == 0
    decreases |specs|
  {
    hide Full, Command, Reason, Count;
    if specs == [] {
      NothingFull();
      NothingCounted(COMMAND);
    } else {
      var front, n := specs[..|specs| - 1], |specs|;
      FullSnoc(specs);
      FullText(front);
      CommandText(n, specs[n - 1]);
      CommandName();
      if front != [] {
        FullShape(front);
      } else {
        NothingFull();
      }
      CountLine(Full(front), Command(n, specs[n - 1]), COMMAND);
      assert Reasons(specs) == Reasons(front) + [Reason(n, specs[n - 1])];
    }
  }

  lemma NothingCounted(w: string)
    requires w != ""
    ensures Count("", w) == 0
  {
  }

  lemma {:induction false} LinesConcat(a: seq<string>, b: seq<string>)
    ensures Lines(a + b) == Lines(a) + Lines(b)
    decreases |b|
  {
    if b == [] {
      assert a + b == a;
    } else {
      assert (a + b)[..|a + b| - 1] == a + b[..|b| - 1];
      LinesConcat(a, b[..|b| - 1]);
    }
  }

  lemma FullConcat(before: seq<Spec>, more: seq<Spec>)
    requires AllOk(before) && AllOk(more)
    ensures AllOk(before + more) && Full(before + more) == Full(before) + Lines(Commands(|before| + 1, more))
  {
    hide Command, Lines;
    assert Commands(1, before + more) == Commands(1, before) + Commands(|before| + 1, more);
    LinesConcat(Commands(1, before), Commands(|before| + 1, more));
  }

  // ----- reading a script back

  /**
    The block between the braces is read back whole exactly if it holds no closing brace itself and the header either
    does not hold the marker or happens to quote the very same block between a marker and a brace.
   */
  lemma ExtractInverts(runId: string, block: string)
    ensures Extract(Script(runId, block)).Some? && '}' !in Extract(Script(runId, block)).value
    ensures Extract(Script(runId, block)) == Some(block) <==>
            '}' !in block && (PlainHeader(runId) || Extract(Header(runId)) == Some(block))
  {
    hide Header, Find, Extract, Script, PlainHeader;
    NoBraceRead(Script(runId, block));
    if PlainHeader(runId) {
      ReadBehindHeader(runId, block);
    } else if Extract(Header(runId)).Some? {
      ReadInsideHeader(runId, block);
      NoBraceRead(Header(runId));
    } else {
      var tail := ReadAcrossHeader(runId, block);
    }
  }

  lemma NoBraceRead(script: string)
    ensures Extract(script).Some? ==> '}' !in Extract(script).value
  {
    match Find(script, MARKER)
    case None =>
    case Some(i) =>
      FindBound(script, MARKER);
      FindChar(script[i + |MARKER|..], '}');
  }

  /** Behind a header without the marker, the block is read up to its first brace. */
  lemma ReadBehindHeader(runId: string, block: string)
    requires PlainHeader(runId)
    ensures Extract(Script(runId, block)).Some?
    ensures Extract(Script(runId, block)) == Some(block) <==> '}' !in block
  {
    hide Header, Find, PlainHeader;
    var rest := block + "}\n";
    MarkerFound(runId, rest);
    assert Script(runId, block)[|Header(runId)| + |MARKER|..] == rest;
    BraceFound(block);
    FindBound(rest, "}");
  }

  /** A header with the marker and a brace behind it hides the block altogether. */
  lemma ReadInsideHeader(runId: string, block: string)
    requires Extract(Header(runId)).Some?
    ensures Extract(Script(runId, block)) == Extract(Header(runId))
  {
    hide Header, Find;
    var h, rest := Header(runId), MARKER + (block + "}\n");
    assert Script(runId, block) == h + rest;
    FindInPrefix(h, MARKER, rest);
    FindBound(h, MARKER);
    var i := Find(h, MARKER).value;
    var tail := h[i + |MARKER|..];
    assert (h + rest)[i + |MARKER|..] == tail + rest;
    FindInPrefix(tail, "}", rest);
    FindBound(tail, "}");
    assert (tail + rest)[..Find(tail, "}").value] == tail[..Find(tail, "}").value];
  }

  /** A header with the marker and no brace behind it becomes part of the block. */
  lemma ReadAcrossHeader(runId: string, block: string) returns (tail: string)
    requires !PlainHeader(runId) && Extract(Header(runId)).None?
    ensures Extract(Script(runId, block)).Some?
    ensures Extract(Script(runId, block)) == Some(tail + MARKER + block) <==> '}' !in block
  {
    hide Header, Find;
    var h, rest := Header(runId), MARKER + (block + "}\n");
    assert Script(runId, block) == h + rest;
    FindInPrefix(h, MARKER, rest);
    FindBound(h, MARKER);
    var i := Find(h, MARKER).value;
    tail := h[i + |MARKER|..];
    FindChar(tail, '}');
    CommandName();
    assert (h + rest)[i + |MARKER|..] == tail + rest == (tail + MARKER + block) + "}\n";
    BraceFound(tail + MARKER + block);
    FindBound(tail + rest, "}");
  }

  lemma BraceFound(block: string)
    ensures var rest, found := block + "}\n", Find(block + "}\n", "}");
            && found.Some? && found.value < |rest| && '}' !in rest[..found.value]
            && (rest[..found.value] == block <==> '}' !in block)
  {
    var rest := block + "}\n";
    assert rest[|block|] == '}';
    FindChar(rest, '}');
    if '}' !in block {
      assert forall i | 0 <= i < |block| :: rest[i] == block[i];
      assert OccursAt(rest, "}", |block|);
      FindFirst(rest, "}", |block|);
      assert rest[..|block|] == block;
    }
  }

  /** A header that does not hold the marker leaves the first one to the block. */
  predicate PlainHeader(runId: string) {
    Find(Header(runId), MARKER).None?
  }

  lemma MarkerFound(runId: string, rest: string)
    requires PlainHeader(runId)
    ensures Find(Header(runId) + MARKER + rest, MARKER) == Some(|Header(runId)|)
  {
    NotFound(Header(runId), MARKER);
    FirstCharOnce();
    hide Header, Find;
    MarkFound(Header(runId), MARKER, rest);
  }

  lemma FirstCharOnce()
    ensures forall k | 0 < k < |MARKER| :: MARKER[k] != MARKER[0]
  {
    assert MARKER[0] == 's';
  }

  /** A word whose first character does not come again cannot start inside the text before it and end inside itself. */
  lemma MarkFound(h: string, mark: string, rest: string)
    requires mark != "" && forall k | 0 < k < |mark| :: mark[k] != mark[0]
    requires forall j: nat :: !OccursAt(h, mark, j)
    ensures Find(h + mark + rest, mark) == Some(|h|)
  {
    var t := h + mark + rest;
    forall j: nat | j < |h|
      ensures !OccursAt(t, mark, j)
    {
      assert j + |mark| <= |h| ==> t[j..j + |mark|] == h[j..j + |mark|];
      assert j + |mark| > |h| ==> t[|h|] == mark[0] && |h| - j < |mark|;
      if j + |mark| > |h| {
        OccursChar(t, mark, j, |h| - j);
      } else {
        assert !OccursAt(h, mark, j);
      }
    }
    assert t[|h|..|h| + |mark|] == mark;
    FindFirst(t, mark, |h|);
  }

  lemma OccursChar(t: string, w: string, j: nat, k: nat)
    requires k < |w|
    ensures OccursAt(t, w, j) ==> t[j + k] == w[k]
  {
    assert OccursAt(t, w, j) ==> w[k] == t[j..j + |w|][k];
  }

  /** In particular every run id without a colon will do. */
  lemma ColonFreeHeader(runId: string)
    requires ':' !in runId
    ensures PlainHeader(runId)
  {
    HeaderText(runId);
    hide Header, Find;
    FindBound(Header(runId), MARKER);
    FoundOccurs(Header(runId), MARKER);
    assert MARKER[4] == ':';
    forall k | 0 <= k < |Header(runId)|
      ensures Header(runId)[k] != ':'
    {
      assert Header(runId)[k] in Header(runId);
    }
    if Find(Header(runId), MARKER).Some? {
      OccursChar(Header(runId), MARKER, Find(Header(runId), MARKER).value, 4);
    }
  }

  lemma HeaderLiterals()
    ensures Lacks("# Auto-generated ", ':') && Lacks("agent_args.tcl for run ", ':')
    ensures Lacks("\n# This file is ", ':') && Lacks("sourced by place.tcl ", ':')
  {
  }

  lemma HeaderEndLiterals()
    ensures Lacks("before inject_hook.tcl\n", ':') && Lacks("# Contains cumulative ", ':')
    ensures Lacks("blockages from all ", ':') && Lacks("previous runs\n", ':')
  {
  }

  lemma HeaderText(runId: string)
    requires ':' !in runId
    ensures Lacks(Header(runId), ':')
  {
    HeaderLiterals();
    HeaderEndLiterals();
    assert Lacks(runId, ':');
    hide Lacks;
    LacksConcat(':');
  }

  lemma MarkedHeader(runId: string)
    requires Find(runId, MARKER).Some?
    ensures !PlainHeader(runId)
  {
    FindBound(runId, MARKER);
    FoundOccurs(runId, MARKER);
    OccursInside(HEADER_START, runId, HEADER_END, MARKER, Find(runId, MARKER).value);
    hide Header, Find;
    if PlainHeader(runId) {
      NotFound(Header(runId), MARKER);
    }
  }

  lemma OccursInside(a: string, t: string, b: string, w: string, i: nat)
    requires OccursAt(t, w, i)
    ensures OccursAt(a + t + b, w, |a| + i)
  {
    assert (a + t + b)[|a| + i..|a| + i + |w|] == t[i..i + |w|];
  }

  lemma BracelessHeader(runId: string)
    requires '}' !in runId
    ensures Extract(Header(runId)).None?
  {
    BraceFreeLiterals();
    BraceFreeEnd();
    LacksConcat('}');
    assert Lacks(runId, '}') && Lacks(Header(runId), '}');
    hide Header, Find;
    FindBound(Header(runId), MARKER);
    if Find(Header(runId), MARKER).Some? {
      var tail := Header(runId)[Find(Header(runId), MARKER).value + |MARKER|..];
      assert forall c | c in tail :: c in Header(runId);
      FindChar(tail, '}');
    }
  }

  lemma BraceFreeLiterals()
    ensures Lacks("# Auto-generated ", '}') && Lacks("agent_args.tcl for run ", '}')
    ensures Lacks("\n# This file is ", '}') && Lacks("sourced by place.tcl ", '}')
  {
  }

  lemma BraceFreeEnd()
    ensures Lacks("before inject_hook.tcl\n", '}') && Lacks("# Contains cumulative ", '}')
    ensures Lacks("blockages from all ", '}') && Lacks("previous runs\n", '}')
  {
  }
}
