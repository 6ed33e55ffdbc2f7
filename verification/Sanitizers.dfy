/**
 * Makes a child's output safe to show: control sequences in the shape of section 5.4 of ECMA-48 are dropped, except
 * complete styling sequences. A string stands for bytes, one character each.
 */
module Sanitizers {
  import opened Pieces

  const ESC := '\U{1B}'
  const BEL := '\U{7}'

  predicate IsFinal(c: char) {
    '@' <= c <= '~'
  }

  /** A tab, a newline, or anything from the space on. */
  predicate IsPlain(c: char) {
    c >= ' ' || c == '\t' || c == '\n'
  }

  predicate IsParameter(c: char) {
    '0' <= c <= '9' || c == ';' || c == ':'
  }

  predicate ValidSGR(parameters: string) {
    forall c | c in parameters :: IsParameter(c)
  }

  // ---------- what is kept ----------

  /** The first final byte from `from` on, or the end. */
  function FinalFrom(value: string, from: nat): (end: nat)
    requires from <= |value|
    ensures from <= end <= |value|
    ensures end < |value| ==> IsFinal(value[end])
    ensures forall i | from <= i < end :: !IsFinal(value[i])
    decreases |value| - from
  {
    if from == |value| || IsFinal(value[from]) then from else FinalFrom(value, from + 1)
  }

  predicate Terminates(value: string, at: nat)
    requires at < |value|
  {
    value[at] == BEL || (value[at] == ESC && at + 1 < |value| && value[at + 1] == '\\')
  }

  /** Just behind the terminator of an operating system command, or the end. */
  function CommandEnd(value: string, from: nat): (end: nat)
    requires from <= |value|
    ensures from <= end <= |value|
    decreases |value| - from
  {
    if from == |value| then from
    else if value[from] == BEL then from + 1
    else if Terminates(value, from) then from + 2
    else CommandEnd(value, from + 1)
  }

  /** What the scanner takes in at once: how many bytes, and the piece it keeps of them, if any. */
  datatype Step = Step(kept: seq<string>, length: nat)

  function Keep(condition: bool, piece: string): seq<string> {
    if condition then [piece] else []
  }

  function FirstStep(value: string): (step: Step)
    requires value != ""
    ensures 0 < step.length <= |value|
    ensures step.kept == [] || step.kept == [value[..step.length]]
  {
    if value[0] != ESC then Step(Keep(IsPlain(value[0]), value[..1]), 1)
    else if |value| == 1 then Step([], 1)
    else if value[1] == '[' then
      var end := FinalFrom(value, 2);
      if end == |value| then Step([], end)
      else Step(Keep(value[end] == 'm' && ValidSGR(value[2..end]), value[..end + 1]), end + 1)
    else if value[1] == ']' then Step([], CommandEnd(value, 2))
    else Step([], 2)
  }

  /** The pieces of the input that are kept. */
  function Kept(value: string): seq<string>
    decreases |value|
  {
    if value == "" then []
    else FirstStep(value).kept + Kept(value[FirstStep(value).length..])
  }

  ghost function Sanitized(value: string): string {
    Joined(Kept(value))
  }

  // ---------- the scanner ----------

  method SanitizeOutput(value: string) returns (output: string)
    ensures output == Sanitized(value)
  {
    output := "";
    var index := 0;
    while index < |value|
      invariant index <= |value|
      invariant Sanitized(value) == output + Sanitized(value[index..])
      decreases |value| - index
    {
      var piece, next;
      if value[index] == ESC {
        piece, next := ScanEscape(value, index);
      } else {
        piece, next := if IsPlain(value[index]) then [value[index]] else "", index + 1;
        PlainPiece(value, index);
      }
      Advance(value, index, output);
      output, index := output + piece, next;
    }
  }

  /** The switch on what follows an escape. */
  method ScanEscape(value: string, index: nat) returns (piece: string, next: nat)
    requires index < |value| && value[index] == ESC
    ensures next == index + FirstStep(value[index..]).length
    ensures piece == PieceOf(value, index)
  {
    if index + 1 >= |value| {
      return "", |value|;
    }
    if value[index + 1] == '[' {
      var end := FindFinal(value, index + 2);
      FinalShift(value, index, 2);
      if end == |value| {
        return "", |value|;
      }
      if value[end] == 'm' {
        var valid := IsValidSGR(value[index + 2..end]);
        assert value[index..][2..end - index] == value[index + 2..end];
        if valid {
          return value[index..end + 1], end + 1;
        }
      }
      return "", end + 1;
    }
    if value[index + 1] == ']' {
      CommandShift(value, index, 2);
      next := SkipCommand(value, index + 2);
      return "", next;
    }
    return "", index + 2;
  }

  /** What the step at a position keeps. */
  ghost function PieceOf(value: string, i: nat): string
    requires i < |value|
  {
    var step := FirstStep(value[i..]);
    if step.kept == [] then "" else value[i..i + step.length]
  }

  lemma PlainPiece(value: string, i: nat)
    requires i < |value| && value[i] != ESC
    ensures FirstStep(value[i..]).length == 1
    ensures PieceOf(value, i) == if IsPlain(value[i]) then [value[i]] else ""
  {
    assert value[i..][..1] == [value[i]] == value[i..i + 1];
  }

  lemma Advance(value: string, i: nat, output: string)
    requires i < |value|
    ensures i + FirstStep(value[i..]).length <= |value|
    ensures output + Sanitized(value[i..])
         == output + PieceOf(value, i) + Sanitized(value[i + FirstStep(value[i..]).length..])
  {
    var step := FirstStep(value[i..]);
    assert value[i..][..step.length] == value[i..i + step.length];
    assert value[i..][step.length..] == value[i + step.length..];
    StepOut(value[i..]);
    Regroup(output, PieceOf(value, i), Sanitized(value[i + step.length..]));
  }

  /** What comes out for one step and the rest. */
  lemma StepOut(value: string)
    requires value != ""
    ensures var step := FirstStep(value);
            Sanitized(value) == (if step.kept == [] then "" else value[..step.length]) + Sanitized(value[step.length..])
  {
    var step := FirstStep(value);
    if step.kept == [] {
      assert [] + Kept(value[step.length..]) == Kept(value[step.length..]);
      assert "" + Sanitized(value[step.length..]) == Sanitized(value[step.length..]);
    } else {
      JoinedCons(value[..step.length], Kept(value[step.length..]));
    }
  }

  /** Looks for the final byte of a control sequence. */
  method FindFinal(value: string, from: nat) returns (end: nat)
    requires from <= |value|
    ensures end == FinalFrom(value, from)
  {
    end := from;
    while end < |value| && (value[end] < '@' || value[end] > '~')
      invariant from <= end <= |value|
      invariant FinalFrom(value, from) == FinalFrom(value, end)
    {
      end := end + 1;
    }
  }

  /** Looks for the end of an operating system command. */
  method SkipCommand(value: string, from: nat) returns (index: nat)
    requires from <= |value|
    ensures index == CommandEnd(value, from)
  {
    index := from;
    while index < |value|
      invariant from <= index <= |value|
      invariant CommandEnd(value, from) == CommandEnd(value, index)
    {
      if value[index] == BEL {
        return index + 1;
      }
      if value[index] == ESC && index + 1 < |value| && value[index + 1] == '\\' {
        return index + 2;
      }
      index := index + 1;
    }
  }

  lemma {:induction false} FinalShift(value: string, i: nat, k: nat)
    requires i + k <= |value|
    ensures FinalFrom(value, i + k) == i + FinalFrom(value[i..], k)
    decreases |value| - k
  {
    if i + k < |value| && !IsFinal(value[i + k]) {
      FinalShift(value, i, k + 1);
    }
  }

  lemma {:induction false} CommandShift(value: string, i: nat, k: nat)
    requires i + k <= |value|
    ensures CommandEnd(value, i + k) == i + CommandEnd(value[i..], k)
    decreases |value| - k
  {
    if i + k < |value| && !Terminates(value, i + k) {
      CommandShift(value, i, k + 1);
    }
  }

  method IsValidSGR(parameters: string) returns (valid: bool)
    ensures valid == ValidSGR(parameters)
  {
    var i := 0;
    while i < |parameters|
      invariant i <= |parameters|
      invariant forall k | 0 <= k < i :: IsParameter(parameters[k])
    {
      var character := parameters[i];
      if (character < '0' || character > '9') && character != ';' && character != ':' {
        assert parameters[i] in parameters;
        return false;
      }
      i := i + 1;
    }
    return true;
  }

  // ---------- what comes out ----------

  /** One plain byte, or one complete styling sequence. */
  predicate IsToken(t: string) {
    || (|t| == 1 && IsPlain(t[0]))
    || (|t| >= 3 && t[0] == ESC && t[1] == '[' && t[|t| - 1] == 'm' && ValidSGR(t[2..|t| - 1]))
  }

  predicate AllTokens(pieces: seq<string>) {
    forall t | t in pieces :: IsToken(t)
  }

  ghost predicate IsClean(value: string) {
    exists tokens :: AllTokens(tokens) && Joined(tokens) == value
  }

  lemma {:induction false} KeptAreTokens(value: string)
    ensures AllTokens(Kept(value))
    decreases |value|
  {
    if value != "" {
      StepKeepsToken(value);
      KeptAreTokens(value[FirstStep(value).length..]);
    }
  }

  lemma StepKeepsToken(value: string)
    requires value != ""
    ensures AllTokens(FirstStep(value).kept)
  {
    if value[0] == ESC && |value| > 1 && value[1] == '[' {
      var end := FinalFrom(value, 2);
      if end < |value| {
        assert value[..end + 1][2..end] == value[2..end];
      }
    }
  }

  /** Tokens in front are kept as they are. */
  lemma {:induction false} TokensAreKept(tokens: seq<string>, rest: string)
    requires AllTokens(tokens)
    ensures Kept(Joined(tokens) + rest) == tokens + Kept(rest)
    decreases |tokens|
  {
    if tokens == [] {
      assert "" + rest == rest;
    } else {
      var t := tokens[0];
      var more := Joined(tokens[1..]) + rest;
      Regroup(t, Joined(tokens[1..]), rest);
      TokensAreKept(tokens[1..], rest);
      TokenIsKept(t, more);
      Regroup([t], tokens[1..], Kept(rest));
      FirstAndRest(tokens);
    }
  }

  lemma TokenIsKept(t: string, rest: string)
    requires IsToken(t)
    ensures Kept(t + rest) == [t] + Kept(rest)
  {
    var value := t + rest;
    assert value[|t|..] == rest && value[..|t|] == t;
    if |t| > 1 {
      var last := |t| - 1;
      assert value[2..last] == t[2..last];
      forall i | 2 <= i < last
        ensures !IsFinal(value[i])
      {
        assert value[i] == t[2..last][i - 2] && value[i] in t[2..last];
      }
      assert value[last] == t[last] == 'm';
      assert FinalFrom(value, 2) == last;
      assert FirstStep(value) == Step([t], |t|);
    }
  }

  /** What comes out is always clean, and clean text comes out as it went in: the fixed points are the clean texts. */
  lemma FixedPoints(value: string)
    ensures IsClean(Sanitized(value))
    ensures Sanitized(value) == value <==> IsClean(value)
    ensures Sanitized(Sanitized(value)) == Sanitized(value)
  {
    KeptAreTokens(value);
    assert AllTokens(Kept(value)) && Joined(Kept(value)) == Sanitized(value);
    CleanIsFixed(Sanitized(value));
    if IsClean(value) {
      CleanIsFixed(value);
    }
  }

  lemma CleanIsFixed(value: string)
    requires IsClean(value)
    ensures Sanitized(value) == value
  {
    var tokens :| AllTokens(tokens) && Joined(tokens) == value;
    TokensAreKept(tokens, "");
    assert value + "" == value && tokens + Kept("") == tokens;
  }

  /** Behind clean text the scanner goes on as if it had just started. */
  lemma CleanPrefix(value: string, rest: string)
    requires IsClean(value)
    ensures Sanitized(value + rest) == value + Sanitized(rest)
  {
    var tokens :| AllTokens(tokens) && Joined(tokens) == value;
    TokensAreKept(tokens, rest);
    JoinedConcat(tokens, Kept(rest));
  }

  // ---------- what is dropped ----------

  /** A complete control sequence that is not a styling sequence leaves no trace. */
  lemma ControlIsDropped(body: string, final: char, rest: string)
    requires IsFinal(final) && forall c | c in body :: !IsFinal(c)
    requires final == 'm' ==> !ValidSGR(body)
    ensures Sanitized([ESC, '['] + body + [final] + rest) == Sanitized(rest)
  {
    var value := [ESC, '['] + body + [final] + rest;
    var end := 2 + |body|;
    assert value[2..end] == body && value[end] == final && value[end + 1..] == rest;
    forall i | 2 <= i < end
      ensures !IsFinal(value[i])
    {
      assert value[i] == body[i - 2];
    }
    assert FinalFrom(value, 2) == end;
    StepOut(value);
    assert "" + Sanitized(rest) == Sanitized(rest);
  }

  /** No terminator of an operating system command lies within the text. */
  predicate Unterminated(body: string) {
    forall i | 0 <= i < |body| :: !Terminates(body, i)
  }

  /** An operating system command leaves no trace, with either terminator, whatever it carries. */
  lemma CommandIsDropped(body: string, rest: string)
    requires Unterminated(body)
    ensures Sanitized([ESC, ']'] + body + [BEL] + rest) == Sanitized(rest)
    ensures Sanitized([ESC, ']'] + body + [ESC, '\\'] + rest) == Sanitized(rest)
  {
    CommandSkipped(body, [BEL], rest);
    CommandSkipped(body, [ESC, '\\'], rest);
  }

  lemma CommandSkipped(body: string, terminator: string, rest: string)
    requires Unterminated(body) && (terminator == [BEL] || terminator == [ESC, '\\'])
    ensures Sanitized([ESC, ']'] + body + terminator + rest) == Sanitized(rest)
  {
    var value := [ESC, ']'] + body + terminator + rest;
    var end := 2 + |body|;
    forall i | 2 <= i < end
      ensures !Terminates(value, i)
    {
      assert value[i] == body[i - 2] && !Terminates(body, i - 2);
      assert i + 1 < end ==> value[i + 1] == body[i - 1];
      assert value[end] == terminator[0];
    }
    CommandRuns(value, 2, end);
    assert value[end] == terminator[0] && (|terminator| == 2 ==> value[end + 1] == terminator[1]);
    assert value[end + |terminator|..] == rest;
    StepOut(value);
    assert "" + Sanitized(rest) == Sanitized(rest);
  }

  lemma {:induction false} CommandRuns(value: string, from: nat, stop: nat)
    requires from <= stop <= |value| && forall i | from <= i < stop :: !Terminates(value, i)
    ensures CommandEnd(value, from) == CommandEnd(value, stop)
    decreases stop - from
  {
    if from < stop {
      assert !Terminates(value, from);
      CommandRuns(value, from + 1, stop);
    }
  }

  /** An operating system command that is not complete at the end of the input takes everything with it. */
  lemma IncompleteCommandIsDropped(body: string)
    requires Unterminated(body)
    ensures Sanitized([ESC, ']'] + body) == ""
  {
    var value := [ESC, ']'] + body;
    forall i | 2 <= i < |value|
      ensures !Terminates(value, i)
    {
      assert value[i] == body[i - 2] && !Terminates(body, i - 2);
      assert i + 1 < |value| ==> value[i + 1] == body[i - 1];
    }
    CommandRuns(value, 2, |value|);
    StepOut(value);
    assert value[|value|..] == "";
  }

  /** What is not complete at the end of the input is not shown. */
  lemma IncompleteIsDropped(body: string)
    requires forall c | c in body :: !IsFinal(c)
    ensures Sanitized([ESC]) == "" && Sanitized([ESC, '['] + body) == ""
  {
    var value := [ESC, '['] + body;
    forall i | 2 <= i < |value|
      ensures !IsFinal(value[i])
    {
      assert value[i] == body[i - 2];
    }
    assert FinalFrom(value, 2) == |value|;
    StepOut([ESC]);
    StepOut(value);
    assert [ESC][1..] == "" && value[|value|..] == "";
  }

  // ---------- nothing is made up ----------

  predicate IsSubsequence(part: string, whole: string)
    decreases |whole|
  {
    || part == ""
    || (whole != "" && IsSubsequence(part, whole[1..]))
    || (whole != "" && part[0] == whole[0] && IsSubsequence(part[1..], whole[1..]))
  }

  lemma {:induction false} SkipMore(part: string, skipped: string, whole: string)
    requires IsSubsequence(part, whole)
    ensures IsSubsequence(part, skipped + whole)
    decreases |skipped|
  {
    if skipped == "" {
      assert skipped + whole == whole;
    } else {
      assert (skipped + whole)[1..] == skipped[1..] + whole;
      SkipMore(part, skipped[1..], whole);
    }
  }

  lemma {:induction false} KeepMore(kept: string, part: string, whole: string)
    requires IsSubsequence(part, whole)
    ensures IsSubsequence(kept + part, kept + whole)
    decreases |kept|
  {
    if kept == "" {
      assert kept + part == part && kept + whole == whole;
    } else {
      assert (kept + part)[1..] == kept[1..] + part && (kept + whole)[1..] == kept[1..] + whole;
      KeepMore(kept[1..], part, whole);
    }
  }

  /** The output is the input with some bytes left out. */
  lemma {:induction false} OnlyRemoves(value: string)
    ensures IsSubsequence(Sanitized(value), value)
    decreases |value|
  {
    if value != "" {
      var step := FirstStep(value);
      OnlyRemoves(value[step.length..]);
      StepOut(value);
      KeptOrSkipped(value, step.length, Sanitized(value[step.length..]), step.kept != []);
    }
  }

  lemma KeptOrSkipped(value: string, n: nat, rest: string, keep: bool)
    requires n <= |value| && IsSubsequence(rest, value[n..])
    ensures IsSubsequence((if keep then value[..n] else "") + rest, value)
  {
    assert value[..n] + value[n..] == value && "" + rest == rest;
    if keep {
      KeepMore(value[..n], rest, value[n..]);
    } else {
      SkipMore(rest, value[..n], value[n..]);
    }
  }

  // ---------- the laws of the scanner ----------

  predicate OutsideFinal(body: string) {
    forall b | b in body :: b < '@' || '~' < b
  }

  predicate IsStyling(body: string, final: char) {
    final == 'm' && forall b | b in body :: '0' <= b <= '9' || b == ';' || b == ':'
  }

  /** Neither a bell nor an escape with a backslash behind it lies within the text. */
  predicate OutsideTerminator(body: string) {
    '\U{7}' !in body && forall i | 0 <= i < |body| - 1 :: !(body[i] == '\U{1B}' && body[i + 1] == '\\')
  }

  /** A byte that begins no sequence is shown, unless it is a control byte other than tab and newline. */
  predicate ByteLaw(f: string -> string, c: char, rest: string) {
    c != '\U{1B}' ==> f([c] + rest) == (if c < ' ' && c != '\t' && c != '\n' then "" else [c]) + f(rest)
  }

  /** An escape that begins no longer sequence takes the byte behind it along. */
  predicate EscapeLaw(f: string -> string, c: char, rest: string) {
    c != '[' && c != ']' ==> f(['\U{1B}', c] + rest) == f(rest)
  }

  /** A control sequence is shown exactly if it is a styling sequence. */
  predicate ControlLaw(f: string -> string, body: string, final: char, rest: string) {
    OutsideFinal(body) && '@' <= final <= '~' ==>
      var sequence := "\U{1B}[" + body + [final];
      f(sequence + rest) == (if IsStyling(body, final) then sequence else "") + f(rest)
  }

  predicate CommandLaw(f: string -> string, body: string, rest: string) {
    OutsideTerminator(body) ==>
      && f("\U{1B}]" + body + "\U{7}" + rest) == f(rest)
      && f("\U{1B}]" + body + "\U{1B}\\" + rest) == f(rest)
  }

  /** What is not complete at the end of the input is not shown. */
  predicate EndLaw(f: string -> string, body: string) {
    && f("") == "" && f("\U{1B}") == ""
    && (OutsideFinal(body) ==> f("\U{1B}[" + body) == "")
    && (OutsideTerminator(body) ==> f("\U{1B}]" + body) == "")
  }

  ghost predicate Laws(f: string -> string) {
    && (forall c, rest :: ByteLaw(f, c, rest) && EscapeLaw(f, c, rest))
    && (forall body, final, rest :: ControlLaw(f, body, final, rest))
    && (forall body, rest :: CommandLaw(f, body, rest))
    && (forall body :: EndLaw(f, body))
  }

  /** The scanner obeys the laws, and nothing else does: they fix what comes out for every input. */
  lemma ScannerIsLawful(f: string -> string)
    ensures Laws(f) <==> forall value :: f(value) == Sanitized(value)
  {
    if Laws(f) {
      forall value
        ensures f(value) == Sanitized(value)
      {
        LawsDetermine(f, value);
      }
    }
    if forall value :: f(value) == Sanitized(value) {
      forall c, rest
        ensures ByteLaw(f, c, rest) && EscapeLaw(f, c, rest)
      {
        ByteIsLawful(f, c, rest);
      }
      forall body, final, rest
        ensures ControlLaw(f, body, final, rest)
      {
        ControlIsLawful(f, body, final, rest);
      }
      forall body, rest
        ensures CommandLaw(f, body, rest)
      {
        CommandIsLawful(f, body, rest);
      }
      forall body
        ensures EndLaw(f, body)
      {
        EndIsLawful(f, body);
      }
    }
  }

  lemma ByteIsLawful(f: string -> string, c: char, rest: string)
    requires forall value :: f(value) == Sanitized(value)
    ensures ByteLaw(f, c, rest) && EscapeLaw(f, c, rest)
  {
    if c != ESC {
      assert ([c] + rest)[..1] == [c] && ([c] + rest)[1..] == rest;
      StepOut([c] + rest);
    }
    if c != '[' && c != ']' {
      EscapeIsDropped(c, rest);
    }
  }

  /** An escape that begins no longer sequence is dropped with the byte behind it, and nothing more. */
  lemma EscapeIsDropped(c: char, rest: string)
    requires c != '[' && c != ']'
    ensures Sanitized([ESC, c] + rest) == Sanitized(rest)
  {
    var value := [ESC, c] + rest;
    assert value[0] == ESC && value[1] == c && value[2..] == rest;
    StepOut(value);
    assert "" + Sanitized(rest) == Sanitized(rest);
  }

  lemma ControlIsLawful(f: string -> string, body: string, final: char, rest: string)
    requires forall value :: f(value) == Sanitized(value)
    ensures ControlLaw(f, body, final, rest)
  {
    if OutsideFinal(body) && '@' <= final <= '~' {
      ControlShown(body, final, rest);
    }
  }

  lemma ControlShown(body: string, final: char, rest: string)
    requires OutsideFinal(body) && '@' <= final <= '~'
    ensures var sequence := "\U{1B}[" + body + [final];
            Sanitized(sequence + rest) == (if IsStyling(body, final) then sequence else "") + Sanitized(rest)
  {
    var sequence := "\U{1B}[" + body + [final];
    if IsStyling(body, final) {
      assert sequence[2..|sequence| - 1] == body;
      TokenIsKept(sequence, rest);
      JoinedCons(sequence, Kept(rest));
    } else {
      ControlIsDropped(body, final, rest);
      assert [ESC, '['] + body + [final] + rest == sequence + rest;
      assert "" + Sanitized(rest) == Sanitized(rest);
    }
  }

  lemma OutsideIsUnterminated(body: string)
    ensures OutsideTerminator(body) <==> Unterminated(body)
  {
    if Unterminated(body) {
      forall i | 0 <= i < |body|
        ensures body[i] != BEL && (i + 1 < |body| ==> !(body[i] == ESC && body[i + 1] == '\\'))
      {
        assert !Terminates(body, i);
      }
    }
  }

  lemma CommandIsLawful(f: string -> string, body: string, rest: string)
    requires forall value :: f(value) == Sanitized(value)
    ensures CommandLaw(f, body, rest)
  {
    OutsideIsUnterminated(body);
    if OutsideTerminator(body) {
      assert "\U{1B}]" == [ESC, ']'] && "\U{7}" == [BEL] && "\U{1B}\\" == [ESC, '\\'];
      CommandIsDropped(body, rest);
    }
  }

  lemma EndIsLawful(f: string -> string, body: string)
    requires forall value :: f(value) == Sanitized(value)
    ensures EndLaw(f, body)
  {
    OutsideIsUnterminated(body);
    assert "\U{1B}]" == [ESC, ']'] && "\U{1B}[" == [ESC, '['] && "\U{1B}" == [ESC];
    if OutsideTerminator(body) {
      IncompleteCommandIsDropped(body);
    }
    if OutsideFinal(body) {
      IncompleteIsDropped(body);
    }
    IncompleteIsDropped("");
  }

  /** Every input begins with something one of the laws speaks of. */
  lemma {:induction false} LawsDetermine(f: string -> string, value: string)
    requires Laws(f)
    ensures f(value) == Sanitized(value)
    decreases |value|
  {
    if value == "" || value == [ESC] {
      assert EndLaw(f, "");
      IncompleteIsDropped("");
      assert value == "" ==> Sanitized(value) == "";
    } else if value[0] != ESC {
      LawsDetermine(f, value[1..]);
      assert value == [value[0]] + value[1..] && ByteLaw(f, value[0], value[1..]);
      StepOut(value);
      assert value[..1] == [value[0]];
    } else if value[1] == '[' {
      ControlDetermined(f, value);
    } else if value[1] == ']' {
      CommandDetermined(f, value);
    } else {
      LawsDetermine(f, value[2..]);
      assert value == [ESC, value[1]] + value[2..] && EscapeLaw(f, value[1], value[2..]);
      EscapeIsDropped(value[1], value[2..]);
    }
  }

  lemma ControlDetermined(f: string -> string, value: string)
    requires Laws(f) && |value| >= 2 && value[0] == ESC && value[1] == '['
    ensures f(value) == Sanitized(value)
    decreases |value|, 0
  {
    var end := FinalFrom(value, 2);
    var body := value[2..end];
    forall b | b in body
      ensures !IsFinal(b)
    {
      var i :| 0 <= i < |body| && body[i] == b;
      assert value[2 + i] == b;
    }
    if end == |value| {
      assert value == "\U{1B}[" + body && EndLaw(f, body);
      IncompleteIsDropped(body);
      assert value == [ESC, '['] + body;
    } else {
      var sequence, rest := "\U{1B}[" + body + [value[end]], value[end + 1..];
      assert value == sequence + rest;
      LawsDetermine(f, rest);
      assert ControlLaw(f, body, value[end], rest);
      ControlShown(body, value[end], rest);
    }
  }

  lemma CommandDetermined(f: string -> string, value: string)
    requires Laws(f) && |value| >= 2 && value[0] == ESC && value[1] == ']'
    ensures f(value) == Sanitized(value)
    decreases |value|, 0
  {
    var at := FirstTerminator(value, 2);
    var body := value[2..at];
    forall i | 0 <= i < |body|
      ensures !Terminates(body, i)
    {
      assert !Terminates(value, 2 + i) && body[i] == value[2 + i];
    }
    OutsideIsUnterminated(body);
    if at == |value| {
      assert value == "\U{1B}]" + body && value == [ESC, ']'] + body && EndLaw(f, body);
      IncompleteCommandIsDropped(body);
    } else {
      var terminator := if value[at] == BEL then "\U{7}" else "\U{1B}\\";
      var rest := value[at + |terminator|..];
      assert value == "\U{1B}]" + body + terminator + rest;
      LawsDetermine(f, rest);
      assert CommandLaw(f, body, rest);
      CommandIsDropped(body, rest);
      assert [ESC, ']'] + body + terminator + rest == value;
    }
  }

  /** Where a terminator first begins from a position on, or the end. */
  lemma {:induction false} FirstTerminator(value: string, from: nat) returns (at: nat)
    requires from <= |value|
    ensures from <= at <= |value| && (at < |value| ==> Terminates(value, at))
    ensures forall i | from <= i < at :: !Terminates(value, i)
    decreases |value| - from
  {
    if from == |value| || Terminates(value, from) {
      at := from;
    } else {
      at := FirstTerminator(value, from + 1);
    }
  }
}
