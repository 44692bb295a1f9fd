/** Chains of blockage calls, in which every call inherits from the script of the one before. */
module Cumulative {
  import opened Blockage
  import opened Searching
  import opened Wrappers

  /** One call of a chain in which every call inherits from the script of the one before. */
  datatype Request = Request(runId: string, specs: seq<Spec>)

  ghost predicate Acceptable(requests: seq<Request>) {
    forall k | 0 <= k < |requests| :: requests[k].specs != [] && AllOk(requests[k].specs)
  }

  /** The script the last call writes. */
  ghost function ScriptAfter(requests: seq<Request>): Option<string>
    requires Acceptable(requests)
  {
    if requests == [] then None
    else
      var last := requests[|requests| - 1];
      Some(NextScript(last.runId, last.specs, ScriptAfter(requests[..|requests| - 1])))
  }

  /** All blockages requested, in order. */
  ghost function Requested(requests: seq<Request>): (all: seq<Spec>)
    requires Acceptable(requests)
    ensures AllOk(all) && (all == [] <==> requests == [])
  {
    if requests == [] then [] else Requested(requests[..|requests| - 1]) + requests[|requests| - 1].specs
  }

  /** No reason holds a closing brace or mentions the command. */
  ghost predicate Clean(specs: seq<Spec>) {
    forall r | r in Reasons(specs) :: '}' !in r && Count(r, COMMAND) == 0
  }

  /** The script's block, trimmed, is the trimmed list of all commands, and the next label will go on from there. */
  ghost predicate Faithful(script: string, all: seq<Spec>)
    requires AllOk(all)
  {
    && Extract(script).Some?
    && Strip(Extract(script).value) == Strip(Full(all))
    && Count(Extract(script).value, COMMAND) == |all|
  }

  /** A header that does not shadow the block, unless by quoting it. */
  ghost predicate FitHeader(runId: string, all: seq<Spec>)
    requires AllOk(all)
  {
    || PlainHeader(runId)
    || (Extract(Header(runId)).Some? && Strip(Extract(Header(runId)).value) == Strip(Full(all)))
  }

  /** Every script of the chain is faithful to the blockages requested so far. */
  ghost predicate AlwaysFaithful(requests: seq<Request>)
    requires Acceptable(requests)
  {
    forall k | 0 < k <= |requests| :: Faithful(ScriptAfter(requests[..k]).value, Requested(requests[..k]))
  }

  ghost predicate FitHeaders(requests: seq<Request>)
    requires Acceptable(requests)
  {
    forall k | 0 < k <= |requests| :: FitHeader(requests[k - 1].runId, Requested(requests[..k]))
  }

  lemma StripsTo(all: seq<Spec>)
    requires AllOk(all) && all != []
    ensures var b := Full(all);
            && |b| >= 6 && b == "    " + b[4..]
            && Strip(b) == Strip("\n" + b) == Strip("\n" + b[4..]) == b[4..|b| - 1]
            && b[4..] == b[4..|b| - 1] + "\n"
            && Count("\n" + b, COMMAND) == Count("\n" + b[4..], COMMAND) == Count(b, COMMAND)
  {
    hide Full, Strip, Count;
    FullShape(all);
    StripsBlock(Full(all), Full(all)[4..|Full(all)| - 1]);
    WordHasNoSpace();
    StripKeeps(Full(all), '}', COMMAND);
    StripKeeps("\n" + Full(all), '}', COMMAND);
    StripKeeps("\n" + Full(all)[4..], '}', COMMAND);
  }

  lemma StripsBlock(b: string, text: string)
    requires |b| >= 6 && b[..4] == "    " && text == b[4..|b| - 1] && b[|b| - 1] == '\n'
    requires !IsSpace(text[0]) && !IsSpace(text[|text| - 1])
    ensures b == "    " + b[4..] && b[4..] == text + "\n"
    ensures Strip(b) == Strip("\n" + b) == Strip("\n" + b[4..]) == text
  {
    hide StripLeft, StripRight;
    assert b[4..] == text + "\n" && b == "    " + b[4..] && "\n" + b == "\n    " + b[4..];
    StripLeftPrefix("    ", b[4..]);
    StripLeftPrefix("\n    ", b[4..]);
    StripLeftPrefix("\n", b[4..]);
    StripRightSuffix(text, "\n");
  }

  lemma WordHasNoSpace()
    ensures forall c | c in COMMAND :: !IsSpace(c)
  {
  }

  /** Inherited text and new commands join to the full list, one indentation short. */
  lemma BlockGrows(all: seq<Spec>, more: seq<Spec>)
    requires AllOk(all) && AllOk(more) && all != []
    ensures AllOk(all + more)
    ensures var b := Full(all);
            |b| >= 6 && |Full(all + more)| >= 4 &&
            Lines([b[4..|b| - 1]] + Commands(|all| + 1, more)) == Full(all + more)[4..]
  {
    hide Full, Commands;
    StripsTo(all);
    FullConcat(all, more);
    var b := Full(all);
    LinesConcat([b[4..|b| - 1]], Commands(|all| + 1, more));
    OneLine(b[4..|b| - 1]);
    assert Full(all + more)[4..] == b[4..] + Lines(Commands(|all| + 1, more));
  }

  lemma OneLine(line: string)
    ensures Lines([line]) == line + "\n"
  {
    assert [line][..0] == [];
  }

  lemma FirstBlock(all: seq<Spec>)
    requires AllOk(all)
    ensures Inherited(None) == ([], 0) && Lines([] + Commands(1, all)) == Full(all)
  {
    assert [] + Commands(1, all) == Commands(1, all);
  }

  lemma CleanPrefix(before: seq<Spec>, more: seq<Spec>)
    requires Clean(before + more)
    ensures Clean(before)
  {
    hide Reason, Count;
    assert Reasons(before + more)[..|before|] == Reasons(before);
    assert forall r | r in Reasons(before) :: r in Reasons(before + more);
  }

  /** What a script reads back as tells whether the blockages were clean. */
  lemma FaithfulIsClean(script: string, all: seq<Spec>)
    requires AllOk(all) && Faithful(script, all)
    ensures Clean(all)
  {
    hide Full, Extract, Strip, Count, Reasons;
    NoBraceRead(script);
    WordHasNoSpace();
    StripKeeps(Extract(script).value, '}', COMMAND);
    StripKeeps(Full(all), '}', COMMAND);
    FullText(all);
  }

  /** Reading back what trims to the full list is faithful if the list is clean. */
  lemma CleanIsFaithful(script: string, all: seq<Spec>)
    requires AllOk(all) && Clean(all)
    requires Extract(script).Some? && Strip(Extract(script).value) == Strip(Full(all))
    ensures Faithful(script, all)
  {
    hide Full, Extract, Strip, Count, Reasons;
    WordHasNoSpace();
    StripKeeps(Extract(script).value, '}', COMMAND);
    StripKeeps(Full(all), '}', COMMAND);
    FullText(all);
  }

  /** The block of a script: the full list, possibly one indentation short. */
  ghost predicate IsBlock(block: string, all: seq<Spec>)
    requires AllOk(all)
  {
    |Full(all)| >= 4 && (block == "\n" + Full(all) || block == "\n" + Full(all)[4..])
  }

  lemma BlockText(block: string, all: seq<Spec>)
    requires AllOk(all) && all != [] && IsBlock(block, all)
    ensures Strip(block) == Strip(Full(all)) && |block| > 0 && block[0] == '\n'
    ensures '}' in block <==> '}' in Full(all)
  {
    hide Full, Strip;
    StripsTo(all);
    assert forall c | c in Full(all) :: c in "    " || c in Full(all)[4..];
    assert forall c | c in Full(all)[4..] :: c in Full(all);
    assert forall c | c in block :: c == '\n' || c in Full(all);
  }

  /** A script is faithful exactly if the blockages are clean and its own header fits. */
  lemma ScriptFaithful(runId: string, block: string, all: seq<Spec>)
    requires AllOk(all) && all != [] && IsBlock(block, all)
    ensures Faithful(Script(runId, block), all) <==> Clean(all) && FitHeader(runId, all)
  {
    hide Full, Extract, Script, Header, Find, Strip, Count, Reasons, IsBlock, PlainHeader;
    var script := Script(runId, block);
    BlockText(block, all);
    FullText(all);
    if Faithful(script, all) {
      FaithfulIsClean(script, all);
    }
    if Clean(all) {
      if PlainHeader(runId) {
        ReadBehindHeader(runId, block);
        CleanIsFaithful(script, all);
      } else if Extract(Header(runId)).Some? {
        ReadInsideHeader(runId, block);
        if FitHeader(runId, all) {
          CleanIsFaithful(script, all);
        }
      } else {
        var tail := ReadAcrossHeader(runId, block);
        SwallowedHeader(tail, block);
      }
    }
  }

  /** A block behind a swallowed marker does not trim to itself: there is one opening brace too many. */
  lemma SwallowedHeader(tail: string, block: string)
    requires |block| > 0 && block[0] == '\n'
    ensures Strip(tail + MARKER + block) != Strip(block)
  {
    hide Strip, Count;
    var front, rest := tail + MARKER[..|MARKER| - 2], block[1..];
    assert MARKER[|MARKER| - 2..] == " {";
    assert tail + MARKER == front + [' '] + "{";
    assert tail + MARKER + block == (tail + MARKER) + ['\n'] + rest && block == "" + ['\n'] + rest;
    CountSplit(front, ' ', "{", "{");
    CountItself("{");
    CountSplit(tail + MARKER, '\n', rest, "{");
    CountSplit("", '\n', rest, "{");
    NothingCounted("{");
    StripKeeps(tail + MARKER + block, '{', "{");
    StripKeeps(block, '{', "{");
  }

  /** After a faithful script, or none, the next call's block is the full list again. */
  lemma NextBlock(prev: Option<string>, before: seq<Spec>, more: seq<Spec>)
    requires AllOk(before) && AllOk(more) && more != []
    requires prev.None? <==> before == []
    requires prev.Some? ==> Faithful(prev.value, before)
    ensures AllOk(before + more)
    ensures var (inherited, count) := Inherited(prev);
            IsBlock("\n" + Lines(inherited + Commands(count + 1, more)), before + more)
  {
    hide Full, Extract, Strip, Count, Commands, Lines;
    if prev.None? {
      assert before + more == more;
      FirstBlock(more);
      FullShape(more);
    } else {
      StripsTo(before);
      BlockGrows(before, more);
    }
  }

  lemma {:induction false} ChainFaithful(requests: seq<Request>)
    requires Acceptable(requests) && requests != []
    ensures AlwaysFaithful(requests) <==> Clean(Requested(requests)) && FitHeaders(requests)
    decreases |requests|
  {
    hide Faithful, Inherited, Commands, Lines, Script, Clean, FitHeader, AlwaysFaithful, FitHeaders;
    var front, last := requests[..|requests| - 1], requests[|requests| - 1];
    var before, all := Requested(front), Requested(requests);
    Snoc(requests);
    if front == [] {
      NothingYet();
    } else {
      ChainFaithful(front);
      if Clean(all) {
        CleanPrefix(before, last.specs);
      }
    }
    if AlwaysFaithful(front) {
      if front != [] {
        AlwaysLast(front);
      }
      NextBlock(ScriptAfter(front), before, last.specs);
      var (inherited, count) := Inherited(ScriptAfter(front));
      ScriptFaithful(last.runId, "\n" + Lines(inherited + Commands(count + 1, last.specs)), all);
    }
  }

  lemma NothingYet()
    ensures AlwaysFaithful([]) && FitHeaders([])
  {
  }

  lemma AlwaysLast(requests: seq<Request>)
    requires Acceptable(requests) && requests != [] && AlwaysFaithful(requests)
    ensures Faithful(ScriptAfter(requests).value, Requested(requests))
  {
    hide Faithful, ScriptAfter, Requested;
    assert requests[..|requests|] == requests;
  }

  lemma Snoc(requests: seq<Request>)
    requires Acceptable(requests) && requests != []
    ensures var front, last := requests[..|requests| - 1], requests[|requests| - 1];
            && (AlwaysFaithful(requests) <==>
                AlwaysFaithful(front) && Faithful(ScriptAfter(requests).value, Requested(requests)))
            && (FitHeaders(requests) <==> FitHeaders(front) && FitHeader(last.runId, Requested(requests)))
  {
    hide Faithful, FitHeader, ScriptAfter, Requested;
    var front, n := requests[..|requests| - 1], |requests|;
    assert requests[..n] == requests;
    assert forall k | 0 < k < n :: front[..k] == requests[..k];
    assert forall k | 0 <= k < n - 1 :: front[k] == requests[k];
  }

  /**
    The cumulative script round-trips. Whatever chain of calls is made, every script of the chain reads back as all
    blockages requested so far, each once, in order and labelled 1, 2, 3, ..., with the next label ready, exactly if no
    reason holds a closing brace, none mentions the command, and no run id puts the marker into the header, unless it
    quotes the whole list behind it. Behind headers without the marker the last script alone decides.
   */
  lemma CumulativeScript(requests: seq<Request>)
    requires Acceptable(requests) && requests != []
    ensures AlwaysFaithful(requests) <==> Clean(Requested(requests)) && FitHeaders(requests)
    ensures (forall k | 0 <= k < |requests| :: PlainHeader(requests[k].runId)) ==>
              (Faithful(ScriptAfter(requests).value, Requested(requests)) <==> Clean(Requested(requests)))
  {
    ChainFaithful(requests);
    hide *;
    if forall k | 0 <= k < |requests| :: PlainHeader(requests[k].runId) {
      PlainFits(requests);
      if Faithful(ScriptAfter(requests).value, Requested(requests)) {
        FaithfulIsClean(ScriptAfter(requests).value, Requested(requests));
      }
      if Clean(Requested(requests)) {
        AlwaysLast(requests);
      }
    }
  }

  lemma PlainFits(requests: seq<Request>)
    requires Acceptable(requests) && forall k | 0 <= k < |requests| :: PlainHeader(requests[k].runId)
    ensures FitHeaders(requests)
  {
    hide PlainHeader, Requested;
  }

  const BRACED := Spec("soft", Some(0.0), Some(0.0), Some(1.0), Some(1.0), Some("}"))

  /** One closing brace in a reason, and the script of an accepted request does not read back. */
  lemma BraceBreaksTheScript()
    ensures Acceptable([Request("1", [BRACED])])
    ensures !Faithful(ScriptAfter([Request("1", [BRACED])]).value, [BRACED])
  {
    BracedIsNotClean();
    hide *;
    OneRequest(Request("1", [BRACED]));
    if Faithful(ScriptAfter([Request("1", [BRACED])]).value, [BRACED]) {
      FaithfulIsClean(ScriptAfter([Request("1", [BRACED])]).value, [BRACED]);
    }
  }

  lemma OneRequest(r: Request)
    requires r.specs != [] && AllOk(r.specs)
    ensures Acceptable([r]) && Requested([r]) == r.specs && ScriptAfter([r]).Some?
    ensures AlwaysFaithful([r]) <==> Faithful(ScriptAfter([r]).value, r.specs)
  {
    hide Faithful;
    assert [r][..0] == [] && [r][..1] == [r];
    assert Requested([r]) == [] + r.specs;
  }

  lemma BracedIsNotClean()
    ensures AllOk([BRACED]) && !Clean([BRACED])
  {
    assert Reasons([BRACED])[0] == "}" && Reasons([BRACED])[0] in Reasons([BRACED]);
  }

  /** A run id that holds the marker and no brace spoils the script of any accepted request. */
  lemma MarkerBreaksTheScript(runId: string, specs: seq<Spec>)
    requires specs != [] && AllOk(specs)
    requires Find(runId, MARKER).Some? && '}' !in runId
    ensures Acceptable([Request(runId, specs)])
    ensures !Faithful(ScriptAfter([Request(runId, specs)]).value, specs)
  {
    MarkedHeader(runId);
    BracelessHeader(runId);
    hide *;
    OneRequest(Request(runId, specs));
    ChainFaithful([Request(runId, specs)]);
    OneHeader(Request(runId, specs));
  }

  lemma OneHeader(r: Request)
    requires r.specs != [] && AllOk(r.specs) && !PlainHeader(r.runId) && Extract(Header(r.runId)).None?
    ensures Acceptable([r]) && !FitHeaders([r])
  {
    hide PlainHeader, Extract, Header;
    assert [r][..1] == [r];
    assert AllOk(Requested([r][..1])) && !FitHeader([r][1 - 1].runId, Requested([r][..1]));
  }
}
