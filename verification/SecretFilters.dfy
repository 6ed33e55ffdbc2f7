/**
 * The streaming redactor that keeps a credential out of a child's output. A string stands for bytes, one character
 * each.
 */
module SecretFilters {
  import opened Wrappers
  import opened Pieces

  const MARKER := "[credential redacted]"

  // ---------- searching ----------

  predicate StartsWith(text: string, part: string) {
    part <= text
  }

  ghost predicate OccursAt(text: string, part: string, i: int) {
    0 <= i <= |text| && part <= text[i..]
  }

  ghost predicate Contains(text: string, part: string) {
    exists i :: OccursAt(text, part, i)
  }

  /** The first place where `part` occurs, or none. */
  function Index(text: string, part: string): (r: Option<nat>)
    ensures r.Some? ==> OccursAt(text, part, r.value) && r.value + |part| <= |text|
    ensures forall i :: OccursAt(text, part, i) ==> r.Some? && r.value <= i
    decreases |text|
  {
    if |text| < |part| then None
    else if part <= text then Some(0)
    else if text == "" then None
    else
      var rest := Index(text[1..], part);
      assert forall i :: OccursAt(text, part, i) ==> i > 0 && text[i..] == text[1..][i - 1..] && OccursAt(text[1..], part, i - 1);
      assert forall i :: OccursAt(text[1..], part, i) ==> text[1..][i..] == text[i + 1..];
      if rest.None? then None else Some(rest.value + 1)
  }

  // ---------- the batch redaction ----------

  /** Every occurrence of the secret, from the left and without overlaps, becomes the marker. */
  function Redact(text: string, secret: string): string
    requires secret != ""
    decreases |text|
  {
    if text == "" then ""
    else if secret <= text then MARKER + Redact(text[|secret|..], secret)
    else [text[0]] + Redact(text[1..], secret)
  }

  /** What stands in the place of a secret. */
  lemma MarkerStandsIn(before: string, secret: string, rest: string)
    requires secret != "" && forall i | 0 <= i < |before| :: !OccursAt(before + secret + rest, secret, i)
    ensures Redact(before + secret + rest, secret) == before + "[credential redacted]" + Redact(rest, secret)
  {
    var text := before + secret + rest;
    assert text[..|before|] == before && text[|before|..] == secret + rest;
    RedactSkips(text, secret, |before|);
    assert (secret + rest)[|secret|..] == rest;
    Regroup(before, MARKER, Redact(rest, secret));
  }

  /** Up to the first occurrence nothing changes. */
  lemma {:induction false} RedactSkips(text: string, secret: string, k: nat)
    requires secret != "" && k <= |text|
    requires forall i | 0 <= i < k :: !OccursAt(text, secret, i)
    ensures Redact(text, secret) == text[..k] + Redact(text[k..], secret)
    decreases |text|
  {
    if k == 0 {
      assert text[0..] == text;
    } else {
      assert !OccursAt(text, secret, 0) && text[0..] == text;
      forall i | 0 <= i < k - 1
        ensures !OccursAt(text[1..], secret, i)
      {
        assert text[1..][i..] == text[i + 1..] && !OccursAt(text, secret, i + 1);
      }
      RedactSkips(text[1..], secret, k - 1);
      SplitFirst(text, k, Redact(text[k..], secret));
    }
  }

  lemma SplitFirst(text: string, k: nat, rest: string)
    requires 0 < k <= |text|
    ensures text[1..][k - 1..] == text[k..]
    ensures [text[0]] + (text[1..][..k - 1] + rest) == text[..k] + rest
  {
  }

  lemma ShortIsPlain(text: string, secret: string)
    requires |text| < |secret|
    ensures Redact(text, secret) == text
  {
    RedactSkips(text, secret, |text|);
  }

  // ---------- what one write drains ----------

  /** The pieces a write passes on, and what it retains. */
  datatype Drained = Drained(pieces: seq<string>, pending: string)

  function Drain(pending: string, secret: string): (r: Drained)
    requires secret != ""
    ensures |r.pending| < |secret|
    decreases |pending|
  {
    if |pending| < |secret| then Drained([], pending)
    else if Index(pending, secret).Some? then
      var at := Index(pending, secret).value;
      var rest := Drain(pending[at + |secret|..], secret);
      rest.(pieces := (if at > 0 then [pending[..at]] else []) + [MARKER] + rest.pieces)
    else
      var count := |pending| - |secret| + 1;
      var rest := Drain(pending[count..], secret);
      rest.(pieces := [pending[..count]] + rest.pieces)
  }

  /** What was passed on is final: whatever follows, it is the start of the batch redaction, and the rest comes later. */
  lemma {:induction false} DrainIsFinal(pending: string, secret: string, future: string)
    requires secret != ""
    ensures var r := Drain(pending, secret);
            Redact(pending + future, secret) == Joined(r.pieces) + Redact(r.pending + future, secret)
    decreases |pending|
  {
    if |pending| >= |secret| {
      if Index(pending, secret).Some? {
        var at := Index(pending, secret).value;
        var rest := pending[at + |secret|..];
        RedactAtMatch(pending, secret, future, at);
        DrainIsFinal(rest, secret, future);
        var r := Drain(rest, secret);
        JoinedPieces(pending[..at], r.pieces);
        Regroup(pending[..at] + MARKER, Joined(r.pieces), Redact(r.pending + future, secret));
      } else {
        var count := |pending| - |secret| + 1;
        RedactBeforeMatch(pending, secret, future, count);
        DrainIsFinal(pending[count..], secret, future);
        var r := Drain(pending[count..], secret);
        JoinedCons(pending[..count], r.pieces);
        Regroup(pending[..count], Joined(r.pieces), Redact(r.pending + future, secret));
      }
    }
  }

  lemma SplitAt(pending: string, future: string, k: nat)
    requires k <= |pending|
    ensures (pending + future)[..k] == pending[..k] && (pending + future)[k..] == pending[k..] + future
  {
  }

  lemma RedactAtMatch(pending: string, secret: string, future: string, at: nat)
    requires secret != "" && OccursAt(pending, secret, at) && at + |secret| <= |pending|
    requires forall i | 0 <= i < at :: !OccursAt(pending, secret, i)
    ensures Redact(pending + future, secret) == pending[..at] + MARKER + Redact(pending[at + |secret|..] + future, secret)
  {
    var all := pending + future;
    NoEarlierMatch(pending, future, secret, at);
    RedactSkips(all, secret, at);
    SplitAt(pending, future, at);
    SplitAt(pending[at..], future, |secret|);
    RedactMatch(pending[at..] + future, secret);
    assert pending[at..][|secret|..] == pending[at + |secret|..];
    Regroup(pending[..at], MARKER, Redact(pending[at + |secret|..] + future, secret));
  }

  lemma RedactMatch(text: string, secret: string)
    requires secret != "" && secret <= text
    ensures Redact(text, secret) == MARKER + Redact(text[|secret|..], secret)
  {
  }

  lemma RedactBeforeMatch(pending: string, secret: string, future: string, count: nat)
    requires secret != "" && count + |secret| == |pending| + 1
    requires forall i | 0 <= i < count :: !OccursAt(pending, secret, i)
    ensures Redact(pending + future, secret) == pending[..count] + Redact(pending[count..] + future, secret)
  {
    var all := pending + future;
    NoEarlierMatch(pending, future, secret, count);
    RedactSkips(all, secret, count);
    SplitAt(pending, future, count);
  }

  lemma JoinedPieces(first: string, rest: seq<string>)
    ensures Joined((if |first| > 0 then [first] else []) + [MARKER] + rest) == first + MARKER + Joined(rest)
  {
    assert ([MARKER] + rest)[1..] == rest;
    if |first| > 0 {
      assert ([first] + [MARKER] + rest)[1..] == [MARKER] + rest;
    } else {
      assert [] + [MARKER] + rest == [MARKER] + rest;
    }
  }

  /** More input cannot bring about an occurrence that lies within the old input. */
  lemma NoEarlierMatch(pending: string, future: string, secret: string, k: nat)
    requires k + |secret| <= |pending| + 1
    requires forall i | 0 <= i < k :: !OccursAt(pending, secret, i)
    ensures forall i | 0 <= i < k :: !OccursAt(pending + future, secret, i)
  {
    forall i | 0 <= i < k
      ensures OccursAt(pending + future, secret, i) ==> OccursAt(pending, secret, i)
    {
      SplitAt(pending, future, i);
      assert secret <= pending[i..] + future ==> secret == (pending[i..] + future)[..|secret|];
      SplitAt(pending[i..], future, |secret|);
    }
  }

  // ---------- any chunking gives the batch redaction ----------

  /** One more write: what has been passed on grows, and what is pending is drained. */
  function After(state: Drained, secret: string, p: string): Drained
    requires secret != ""
  {
    var step := Drain(state.pending + p, secret);
    Drained(state.pieces + step.pieces, step.pending)
  }

  function Last(state: Drained, secret: string, writes: seq<string>): (r: Drained)
    requires secret != ""
    decreases |writes|
  {
    if writes == [] then state else Last(After(state, secret, writes[0]), secret, writes[1..])
  }

  /** Everything a filter passes on for a series of writes and the flush at the end. */
  function Filtered(secret: string, writes: seq<string>): seq<string>
    requires secret != ""
  {
    var r := Last(Drained([], ""), secret, writes);
    r.pieces + [r.pending]
  }

  /** However the input is cut into writes, what comes out is the batch redaction of the whole input. */
  lemma StreamingIsBatch(secret: string, writes: seq<string>)
    requires secret != ""
    ensures Joined(Filtered(secret, writes)) == Redact(Joined(writes), secret)
  {
    var r := Last(Drained([], ""), secret, writes);
    WritesAreFinal(Drained([], ""), secret, writes);
    EmptyLeft(Joined(writes));
    EmptyLeft(Redact(Joined(writes), secret));
    ShortIsPlain(r.pending, secret);
    JoinedConcat(r.pieces, [r.pending]);
    JoinedCons(r.pending, []);
  }

  lemma EmptyLeft(text: string)
    ensures "" + text == text && text + "" == text
  {
  }

  lemma {:induction false} WritesAreFinal(state: Drained, secret: string, writes: seq<string>)
    requires secret != "" && |state.pending| < |secret|
    ensures var r := Last(state, secret, writes);
            && |r.pending| < |secret|
            && Joined(state.pieces) + Redact(state.pending + Joined(writes), secret) == Joined(r.pieces) + Redact(r.pending, secret)
    decreases |writes|
  {
    if writes == [] {
      assert state.pending + "" == state.pending;
    } else {
      var future := Joined(writes[1..]);
      var step := Drain(state.pending + writes[0], secret);
      Regroup(state.pending, writes[0], future);
      DrainIsFinal(state.pending + writes[0], secret, future);
      JoinedConcat(state.pieces, step.pieces);
      Regroup(Joined(state.pieces), Joined(step.pieces), Redact(step.pending + future, secret));
      WritesAreFinal(Drained(state.pieces + step.pieces, step.pending), secret, writes[1..]);
    }
  }

  // ---------- when the secret comes out ----------

  /** The secret begins with the last `k` bytes of the marker and goes on behind them. */
  predicate FollowsMarker(secret: string, k: nat) {
    0 < k < |secret| && k <= |MARKER| && secret[..k] == MARKER[|MARKER| - k..]
  }

  /** Behind its first `n` bytes the secret begins like the marker, and these bytes hide no earlier occurrence. */
  ghost predicate LeadsToMarker(secret: string, n: nat) {
    && 0 < n < |secret|
    && (secret[n..] <= MARKER || MARKER <= secret[n..])
    && forall i | 0 <= i < n :: !OccursAt(secret[..n] + secret, secret, i)
  }

  /** The marker contains the secret, or can stand for a part of it: its start, or what follows its start. */
  ghost predicate CanLeak(secret: string) {
    || Contains(MARKER, secret)
    || (exists k: nat :: FollowsMarker(secret, k))
    || (exists n: nat :: LeadsToMarker(secret, n))
  }

  /** The redacted text contains the secret. */
  ghost predicate Leaks(text: string, secret: string)
    requires secret != ""
  {
    Contains(Redact(text, secret), secret)
  }

  /** Some input brings the secret out again exactly if the secret and the marker overlap in one of three ways. */
  lemma LeaksExactly(secret: string)
    requires secret != ""
    ensures (exists text :: Leaks(text, secret)) <==> CanLeak(secret)
  {
    if CanLeak(secret) {
      var text := LeakingInput(secret);
      assert Leaks(text, secret);
    } else {
      forall text
        ensures !Leaks(text, secret)
      {
        NeverLeaks(text, secret);
      }
    }
  }

  // ---------- an occurrence in the output is an overlap ----------

  lemma UnmatchedIsPlain(text: string, secret: string)
    requires secret != ""
    ensures Index(text, secret).None? ==> Redact(text, secret) == text
  {
    if Index(text, secret).None? {
      RedactSkips(text, secret, |text|);
      assert text[..|text|] == text;
    }
  }

  lemma WithinPlain(text: string, j: nat, rest: string, secret: string)
    requires j <= |text| && secret <= text[..j] + rest
    ensures |secret| <= j ==> secret <= text
  {
    if |secret| <= j {
      assert (text[..j] + rest)[..|secret|] == text[..|secret|];
    }
  }

  /** Output that begins with the secret although the input does not. */
  lemma StartLeads(text: string, secret: string)
    requires secret != "" && !(secret <= text) && secret <= Redact(text, secret)
    ensures CanLeak(secret)
  {
    UnmatchedIsPlain(text, secret);
    var j := Index(text, secret).value;
    RedactSkips(text, secret, j);
    RedactMatch(text[j..], secret);
    var rest := Redact(text[j..][|secret|..], secret);
    assert Redact(text, secret) == text[..j] + (MARKER + rest);
    WithinPlain(text, j, MARKER + rest, secret);
    ReachesMarker(text[..j], rest, secret);
    StillFirst(text, secret, j);
    assert LeadsToMarker(secret, j);
  }

  /** A secret that begins in plain text and reaches into a marker. */
  lemma ReachesMarker(plain: string, rest: string, secret: string)
    requires |plain| < |secret| && secret <= plain + (MARKER + rest)
    ensures secret[..|plain|] == plain
    ensures secret[|plain|..] <= MARKER || MARKER <= secret[|plain|..]
  {
    var k := |secret| - |plain|;
    assert secret == plain + (MARKER + rest)[..k];
    assert secret[|plain|..] == (MARKER + rest)[..k];
    if k <= |MARKER| {
      assert (MARKER + rest)[..k] == MARKER[..k];
    }
  }

  /** Before the first occurrence there is none in what leads up to it either. */
  lemma StillFirst(text: string, secret: string, j: nat)
    requires OccursAt(text, secret, j) && forall i | 0 <= i < j :: !OccursAt(text, secret, i)
    requires j <= |secret| && secret[..j] == text[..j]
    ensures forall i | 0 <= i < j :: !OccursAt(secret[..j] + secret, secret, i)
  {
    var rest := text[j..][|secret|..];
    assert text[j..] == secret + rest;
    assert text == secret[..j] + secret + rest;
    forall i | 0 <= i < j
      ensures OccursAt(secret[..j] + secret, secret, i) ==> OccursAt(text, secret, i)
    {
      SplitAt(secret[..j] + secret, rest, i);
    }
  }

  /** A secret that begins within a marker. */
  lemma HeadInMarker(rest: string, secret: string, i: nat)
    requires i < |MARKER| && OccursAt(MARKER + rest, secret, i)
    ensures CanLeak(secret)
  {
    assert (MARKER + rest)[i..] == MARKER[i..] + rest;
    if |secret| <= |MARKER| - i {
      assert OccursAt(MARKER, secret, i);
    } else {
      assert FollowsMarker(secret, |MARKER| - i);
    }
  }

  lemma DropInto(a: string, b: string, i: nat)
    requires |a| <= i <= |a| + |b|
    ensures (a + b)[i..] == b[i - |a|..]
  {
  }

  lemma {:induction false} OccurrenceOverlaps(text: string, secret: string, i: nat)
    requires secret != "" && OccursAt(Redact(text, secret), secret, i)
    ensures CanLeak(secret)
    decreases |text|
  {
    if text != "" {
      if secret <= text {
        RedactMatch(text, secret);
        var rest := Redact(text[|secret|..], secret);
        if i < |MARKER| {
          HeadInMarker(rest, secret, i);
        } else {
          DropInto(MARKER, rest, i);
          OccurrenceOverlaps(text[|secret|..], secret, i - |MARKER|);
        }
      } else if i > 0 {
        DropInto([text[0]], Redact(text[1..], secret), i);
        OccurrenceOverlaps(text[1..], secret, i - 1);
      } else {
        assert Redact(text, secret)[0..] == Redact(text, secret);
        StartLeads(text, secret);
      }
    }
  }

  /** A secret that does not overlap the marker never comes out, whatever goes in. */
  lemma NeverLeaks(text: string, secret: string)
    requires secret != ""
    ensures Leaks(text, secret) ==> CanLeak(secret)
  {
    if Leaks(text, secret) {
      var i :| OccursAt(Redact(text, secret), secret, i);
      OccurrenceOverlaps(text, secret, i);
    }
  }

  // ---------- an overlap brings the secret out ----------

  /** An input that brings the secret out again. */
  lemma LeakingInput(secret: string) returns (text: string)
    requires secret != "" && CanLeak(secret)
    ensures Leaks(text, secret)
  {
    if Contains(MARKER, secret) {
      text := secret;
      LeakWhole(secret);
    } else if k: nat :| FollowsMarker(secret, k) {
      text := secret + secret[k..];
      LeakBehind(secret, k);
    } else {
      var n: nat :| LeadsToMarker(secret, n);
      var tail := if MARKER <= secret[n..] then secret[n + |MARKER|..] else "";
      text := secret[..n] + secret + tail;
      LeakAhead(secret, n, tail);
    }
  }

  /** What comes of the secret between plain text before it and a short text behind it. */
  lemma RedactOnce(before: string, secret: string, tail: string)
    requires secret != "" && |tail| < |secret|
    requires forall i | 0 <= i < |before| :: !OccursAt(before + secret, secret, i)
    ensures Redact(before + secret + tail, secret) == before + MARKER + tail
  {
    var pending := before + secret;
    assert pending[|before|..] == secret && pending[..|before|] == before;
    RedactAtMatch(pending, secret, tail, |before|);
    assert pending[|before| + |secret|..] + tail == tail;
    ShortIsPlain(tail, secret);
  }

  lemma LeakWhole(secret: string)
    requires secret != "" && Contains(MARKER, secret)
    ensures Leaks(secret, secret)
  {
    RedactOnce("", secret, "");
    assert "" + secret + "" == secret && "" + MARKER + "" == MARKER;
  }

  lemma LeakBehind(secret: string, k: nat)
    requires FollowsMarker(secret, k)
    ensures secret != "" && Leaks(secret + secret[k..], secret)
  {
    RedactOnce("", secret, secret[k..]);
    EmptyLeft(secret);
    EmptyLeft(MARKER);
    var i := |MARKER| - k;
    SplitAt(MARKER, secret[k..], i);
    assert secret == secret[..k] + secret[k..];
    assert OccursAt(MARKER + secret[k..], secret, i);
  }

  lemma LeakAhead(secret: string, n: nat, tail: string)
    requires LeadsToMarker(secret, n) && tail == if MARKER <= secret[n..] then secret[n + |MARKER|..] else ""
    ensures secret != "" && Leaks(secret[..n] + secret + tail, secret)
  {
    RedactOnce(secret[..n], secret, tail);
    var out := secret[..n] + MARKER + tail;
    assert secret == secret[..n] + secret[n..];
    if MARKER <= secret[n..] {
      assert secret[n..] == MARKER + tail;
      assert out == secret;
    } else {
      assert secret <= out;
    }
    assert out[0..] == out;
    assert OccursAt(out, secret, 0);
  }

  // ---------- secrets without and with brackets ----------

  /** A secret without brackets never comes out of any input, exactly if it is not part of the marker's own text. */
  lemma RedactionHides(secret: string)
    requires secret != "" && '[' !in secret && ']' !in secret
    ensures (forall text :: !Leaks(text, secret)) <==> !Contains(MARKER, secret)
  {
    LeaksExactly(secret);
    LeakingNeedsBrackets(secret);
  }

  lemma LeakingNeedsBrackets(secret: string)
    ensures CanLeak(secret) ==> '[' in secret || ']' in secret || Contains(MARKER, secret)
  {
    if CanLeak(secret) && !Contains(MARKER, secret) {
      assert MARKER[0] == '[' && MARKER[|MARKER| - 1] == ']';
      if k: nat :| FollowsMarker(secret, k) {
        assert secret[k - 1] == secret[..k][k - 1] == MARKER[|MARKER| - k..][k - 1];
      } else {
        var n: nat :| LeadsToMarker(secret, n);
        assert secret[n] == secret[n..][0] == '[';
      }
    }
  }

  /** Brackets do matter: a secret that begins like the end of the marker comes out of some inputs. */
  lemma BracketedSecretLeaks(rest: string)
    requires rest != ""
    ensures var secret := "]" + rest;
            Leaks(secret + rest, secret)
  {
    var secret := "]" + rest;
    assert MARKER[|MARKER| - 1..] == "]" == secret[..1];
    assert secret[1..] == rest;
    LeakBehind(secret, 1);
  }

  // ---------- the filter ----------

  /** A writer that passes pieces on and fails for good after `room` more of them. */
  class Sink {
    var pieces: seq<string>
    var room: nat

    constructor (room: nat)
      ensures pieces == [] && this.room == room
    {
      pieces := [];
      this.room := room;
    }

    method Write(piece: string) returns (ok: bool)
      modifies this
      ensures ok <==> old(room) > 0
      ensures ok ==> pieces == old(pieces) + [piece] && room == old(room) - 1
      ensures !ok ==> pieces == old(pieces) && room == old(room)
    {
      if room == 0 {
        return false;
      }
      pieces, room := pieces + [piece], room - 1;
      return true;
    }
  }

  lemma NextPiece(all: seq<string>, n: nat, first: string, rest: seq<string>)
    requires n <= |all| && (all[n..] == [first] + rest || ([] + [first] + rest == all[n..]))
    ensures n < |all| && all[n] == first && all[n + 1..] == rest
  {
    assert [] + [first] + rest == [first] + rest;
    assert all[n..][1..] == all[n + 1..];
  }

  class SecretFilter {
    const writer: Sink
    const secret: string
    var pending: string

    constructor (writer: Sink, secret: string)
      ensures this.writer == writer && this.secret == secret && pending == ""
    {
      this.writer := writer;
      this.secret := secret;
      pending := "";
    }

    /** Retains only what may still become an occurrence; a failing writer has been given the first pieces only. */
    method Write(p: string) returns (ok: bool)
      requires secret != ""
      modifies this, writer
      ensures var r := Drain(old(pending) + p, secret);
              && (ok <==> |r.pieces| <= old(writer.room))
              && (ok ==> writer.pieces == old(writer.pieces) + r.pieces && pending == r.pending && |pending| < |secret|)
              && (!ok ==> writer.pieces == old(writer.pieces) + r.pieces[..old(writer.room)])
      ensures writer.room == old(writer.room) - (|writer.pieces| - |old(writer.pieces)|)
    {
      pending := pending + p;
      ghost var all := Drain(pending, secret);
      ghost var before, room, n := writer.pieces, writer.room, 0;
      while |pending| >= |secret|
        invariant n <= room && writer.room == room - n
        invariant Passing(before, all, n)
        decreases |pending|
      {
        var found := Index(pending, secret);
        if found.Some? {
          ok, n := PassMatch(found.value, before, all, n);
        } else {
          ok, n := PassPlain(before, all, n);
        }
        if !ok {
          return;
        }
      }
      return true;
    }

    /** `n` of the pieces of a write have been passed on, and what is pending will give the others. */
    ghost predicate Passing(before: seq<string>, all: Drained, n: nat)
      requires secret != ""
      reads this, writer
    {
      n <= |all.pieces| && writer.pieces == before + all.pieces[..n]
      && Drain(pending, secret) == Drained(all.pieces[n..], all.pending)
    }

    method PassMatch(at: nat, ghost before: seq<string>, ghost all: Drained, ghost n: nat) returns (ok: bool, ghost n': nat)
      requires secret != "" && |pending| >= |secret| && Index(pending, secret) == Some(at) && Passing(before, all, n)
      modifies this, writer
      ensures n' <= |all.pieces| && writer.pieces == before + all.pieces[..n'] && writer.room == old(writer.room) - (n' - n)
      ensures ok ==> Passing(before, all, n') && |pending| < |old(pending)|
      ensures !ok ==> writer.room == 0 && n' < |all.pieces|
    {
      ghost var rest := Drain(pending[at + |secret|..], secret).pieces;
      n' := n;
      if at > 0 {
        NextPiece(all.pieces, n', pending[..at], [MARKER] + rest);
        ok := Emit(pending[..at], before, all.pieces, n');
        if !ok {
          return;
        }
        n' := n' + 1;
      }
      NextPiece(all.pieces, n', MARKER, rest);
      ok := Emit(MARKER, before, all.pieces, n');
      if !ok {
        return;
      }
      n' := n' + 1;
      pending := pending[at + |secret|..];
    }

    method PassPlain(ghost before: seq<string>, ghost all: Drained, ghost n: nat) returns (ok: bool, ghost n': nat)
      requires secret != "" && |pending| >= |secret| && Index(pending, secret) == None && Passing(before, all, n)
      modifies this, writer
      ensures n' <= |all.pieces| && writer.pieces == before + all.pieces[..n'] && writer.room == old(writer.room) - (n' - n)
      ensures ok ==> Passing(before, all, n') && |pending| < |old(pending)|
      ensures !ok ==> writer.room == 0 && n' < |all.pieces|
    {
      var count := |pending| - |secret| + 1;
      n' := n;
      NextPiece(all.pieces, n', pending[..count], Drain(pending[count..], secret).pieces);
      ok := Emit(pending[..count], before, all.pieces, n');
      if !ok {
        return;
      }
      n' := n' + 1;
      pending := pending[count..];
    }

    method Emit(piece: string, ghost before: seq<string>, ghost all: seq<string>, ghost n: nat) returns (ok: bool)
      requires n < |all| && all[n] == piece && writer.pieces == before + all[..n]
      modifies writer
      ensures ok <==> old(writer.room) > 0
      ensures ok ==> writer.pieces == before + all[..n + 1] && writer.room == old(writer.room) - 1
      ensures !ok ==> writer.pieces == before + all[..n] && writer.room == 0
    {
      assert all[..n + 1] == all[..n] + [piece];
      ok := writer.Write(piece);
    }

    method Flush() returns (ok: bool)
      modifies this, writer
      ensures ok <==> old(writer.room) > 0
      ensures writer.pieces == if ok then old(writer.pieces) + [old(pending)] else old(writer.pieces)
      ensures pending == ""
    {
      ok := writer.Write(pending);
      pending := "";
    }
  }

  lemma LastStep(state: Drained, secret: string, writes: seq<string>, i: nat)
    requires secret != "" && i < |writes|
    ensures Last(state, secret, writes[i..]) == Last(After(state, secret, writes[i]), secret, writes[i + 1..])
  {
    assert writes[i..][0] == writes[i] && writes[i..][1..] == writes[i + 1..];
  }

  ghost predicate IsIn(filter: SecretFilter, before: seq<string>, state: Drained)
    reads filter, filter.writer
  {
    filter.writer.pieces == before + state.pieces && filter.pending == state.pending
  }

  method FilterOne(filter: SecretFilter, p: string, ghost before: seq<string>, ghost state: Drained) returns (ok: bool)
    requires filter.secret != "" && IsIn(filter, before, state)
    modifies filter, filter.writer
    ensures var pieces := After(state, filter.secret, p).pieces;
            var room := |state.pieces| + old(filter.writer.room);
            && (ok <==> |pieces| <= room)
            && (ok ==> filter.writer.room == room - |pieces|)
            && (!ok ==> filter.writer.room == 0 && filter.writer.pieces == before + pieces[..room])
    ensures ok ==> IsIn(filter, before, After(state, filter.secret, p))
  {
    PartOfBoth(before, state.pieces, Drain(state.pending + p, filter.secret).pieces, filter.writer.room);
    ok := filter.Write(p);
  }

  lemma PartOfBoth(before: seq<string>, a: seq<string>, b: seq<string>, room: nat)
    ensures before + a + b == before + (a + b)
    ensures room <= |b| ==> before + a + b[..room] == before + (a + b)[..|a| + room]
  {
  }

  lemma {:induction false} LastExtends(state: Drained, secret: string, writes: seq<string>)
    requires secret != ""
    ensures state.pieces <= Last(state, secret, writes).pieces
    decreases |writes|
  {
    if writes != [] {
      LastExtends(After(state, secret, writes[0]), secret, writes[1..]);
    }
  }

  /** What was passed on before a writer failed is what the whole series would have passed on first. */
  lemma CutShort(state: Drained, secret: string, writes: seq<string>, i: nat, room: nat)
    requires secret != "" && i < |writes| && room < |After(state, secret, writes[i]).pieces|
    requires Last(state, secret, writes[i..]) == Last(Drained([], ""), secret, writes)
    ensures room < |Filtered(secret, writes)|
    ensures After(state, secret, writes[i]).pieces[..room] == Filtered(secret, writes)[..room]
  {
    LastStep(state, secret, writes, i);
    LastExtends(After(state, secret, writes[i]), secret, writes[i + 1..]);
  }

  /**
   * A child's writes to one stream and the flush at the end, as Run wires them up. The flush comes also when a write
   * failed; what has arrived by then is the start of what would have arrived.
   */
  method FilterAll(writes: seq<string>, writer: Sink, secret: string) returns (ok: bool)
    requires secret != ""
    modifies writer
    ensures ok <==> |Filtered(secret, writes)| <= old(writer.room)
    ensures writer.pieces ==
            old(writer.pieces) + if ok then Filtered(secret, writes) else Filtered(secret, writes)[..old(writer.room)]
  {
    var filter := new SecretFilter(writer, secret);
    ghost var state, before, room := Drained([], ""), writer.pieces, writer.room;
    var i := 0;
    while i < |writes|
      invariant i <= |writes| && filter.writer == writer && filter.secret == secret
      invariant IsIn(filter, before, state) && writer.room == room - |state.pieces|
      invariant Last(state, secret, writes[i..]) == Last(Drained([], ""), secret, writes)
    {
      ok := FilterOne(filter, writes[i], before, state);
      if !ok {
        CutShort(state, secret, writes, i, room);
        ok := filter.Flush();
        return;
      }
      LastStep(state, secret, writes, i);
      state := After(state, secret, writes[i]);
      i := i + 1;
    }
    FlushedLast(state, secret, writes, before, room);
    ok := filter.Flush();
  }

  lemma FlushedLast(state: Drained, secret: string, writes: seq<string>, before: seq<string>, room: nat)
    requires secret != "" && state == Last(Drained([], ""), secret, writes)
    ensures Filtered(secret, writes) == state.pieces + [state.pending]
    ensures before + state.pieces + [state.pending] == before + Filtered(secret, writes)
    ensures room == |state.pieces| ==> Filtered(secret, writes)[..room] == state.pieces
  {
  }
}
