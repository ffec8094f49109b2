/**
 * The SRT serialiser of the transcription API: word-level timestamps are cut
 * into cues of ten words, each cue rendered as
 *   index "\n" START " --> " END "\n" text "\n\n"
 * with times written HH:MM:SS,mmm.
 *
 * Times are whole milliseconds here (the source receives float seconds).
 */
module Srt {
  import opened Wrappers
  import opened Text

  /** One word of the provider's response; every field may be absent. `start` and `end`
      are in milliseconds: 1000 times the seconds the source hands to `format_time_srt`. */
  datatype Word = Word(text: Option<string>, start: Option<nat>, end: Option<nat>)

  /** `word.get("text", "")` */
  function TextOf(w: Word): string { w.text.GetOr("") }

  /** `word.get("start", 0)` */
  function StartOf(w: Word): nat { w.start.GetOr(0) }

  /** `word.get("end", word.get("start", 0) + 1)`: one second after the start. */
  function EndOf(w: Word): nat { w.end.GetOr(StartOf(w) + 1000) }

  /** The fields of an SRT time stamp. */
  datatype Clock = Clock(hours: nat, minutes: nat, seconds: nat, millis: nat)

  /** The number of milliseconds a clock reading denotes. */
  function Millis(c: Clock): nat {
    (c.hours * 3600 + c.minutes * 60 + c.seconds) * 1000 + c.millis
  }

  /** Breaks `t` milliseconds into hours, minutes, seconds and milliseconds. */
  function Split(t: nat): Clock {
    var s := t / 1000;
    Clock(s / 3600, (s % 3600) / 60, s % 60, t % 1000)
  }

  /** The fields are in range and add back up to `t`. */
  lemma SplitFields(t: nat)
    ensures var c := Split(t);
      && c.minutes < 60 && c.seconds < 60 && c.millis < 1000
      && c.hours * 3600 + c.minutes * 60 + c.seconds == t / 1000
      && Millis(c) == t
  {
  }

  /** The fields are determined by the time: no other in-range clock denotes `t`. */
  lemma SplitUnique(t: nat, c: Clock)
    requires c.minutes < 60 && c.seconds < 60 && c.millis < 1000
    requires Millis(c) == t
    ensures c == Split(t)
  {
    var a := c.hours * 3600 + c.minutes * 60 + c.seconds;
    assert t / 1000 == a && t % 1000 == c.millis;
    var m := c.hours * 60 + c.minutes;
    assert a == m * 60 + c.seconds;
    assert a / 60 == m && a % 60 == c.seconds;
    assert a / 3600 == c.hours;
    assert a % 3600 == c.minutes * 60 + c.seconds;
  }

  /** `format_time_srt`: "HH:MM:SS,mmm", hours at least two digits. */
  function FormatTime(t: nat): string {
    var c := Split(t);
    PadNumber(c.hours, 2) + ":" + PadNumber(c.minutes, 2) + ":" + PadNumber(c.seconds, 2)
      + "," + PadNumber(c.millis, 3)
  }

  /** The pieces of a time stamp: hours, then two-digit minutes and seconds and
      three-digit milliseconds, separated by ':', ':' and ','. */
  lemma FormatTimeFields(t: nat)
    ensures var c, r := Split(t), FormatTime(t);
      && |r| >= 12
      && r == PadNumber(c.hours, 2) + ":" + PadNumber(c.minutes, 2) + ":" + PadNumber(c.seconds, 2) + "," + PadNumber(c.millis, 3)
      && |PadNumber(c.hours, 2)| >= 2 && |PadNumber(c.minutes, 2)| == 2
      && |PadNumber(c.seconds, 2)| == 2 && |PadNumber(c.millis, 3)| == 3
  {
    var c := Split(t);
    SplitFields(t);
    PadNumberValue(c.hours, 2);
    PadNumberWidth(c.minutes, 2);
    PadNumberWidth(c.seconds, 2);
    PadNumberWidth(c.millis, 3);
  }

  /** The time four digit fields denote, when they are digits and minutes and seconds are below 60. */
  function ParseFields(h: string, m: string, sec: string, ms: string): Option<nat> {
    if AllDigits(h) && AllDigits(m) && AllDigits(sec) && AllDigits(ms)
       && ParseDigits(m) < 60 && ParseDigits(sec) < 60
    then Some(Millis(Clock(ParseDigits(h), ParseDigits(m), ParseDigits(sec), ParseDigits(ms))))
    else None
  }

  /** Reads an "H..H:MM:SS,mmm" time stamp back into milliseconds. */
  function ParseTime(s: string): Option<nat> {
    if |s| < 12 then None
    else
      var n := |s|;
      if s[n - 10] == ':' && s[n - 7] == ':' && s[n - 4] == ','
      then ParseFields(s[..n - 10], s[n - 9..n - 7], s[n - 6..n - 4], s[n - 3..])
      else None
  }

  /** A stamp assembled from digit fields of the right widths reads back as those fields. */
  lemma ParseTimeParts(h: string, m: string, sec: string, ms: string)
    requires |h| >= 2 && |m| == 2 && |sec| == 2 && |ms| == 3
    requires AllDigits(h) && AllDigits(m) && AllDigits(sec) && AllDigits(ms)
    requires ParseDigits(m) < 60 && ParseDigits(sec) < 60
    ensures ParseTime(h + ":" + m + ":" + sec + "," + ms)
      == Some(Millis(Clock(ParseDigits(h), ParseDigits(m), ParseDigits(sec), ParseDigits(ms))))
  {
    StampLayout(h, m, sec, ms);
  }

  /** Where the separators and fields of an assembled stamp sit, counted from its end. */
  lemma StampLayout(h: string, m: string, sec: string, ms: string)
    requires |m| == 2 && |sec| == 2 && |ms| == 3
    ensures var r := h + ":" + m + ":" + sec + "," + ms; var n := |r|;
      && n == |h| + 10
      && r[n - 10] == ':' && r[n - 7] == ':' && r[n - 4] == ','
      && r[..n - 10] == h && r[n - 9..n - 7] == m && r[n - 6..n - 4] == sec && r[n - 3..] == ms
  {
    var r := h + ":" + m + ":" + sec + "," + ms;
    var n := |r|;
    assert r[..n - 10] == h;
    assert r[n - 9..n - 7] == m;
    assert r[n - 6..n - 4] == sec;
    assert r[n - 3..] == ms;
  }

  /** Formatting loses nothing: the time stamp reads back as the same time. */
  lemma FormatTimeRoundTrip(t: nat)
    ensures ParseTime(FormatTime(t)) == Some(t)
  {
    var c := Split(t);
    SplitFields(t);
    FormatTimeFields(t);
    PadNumberValue(c.hours, 2);
    PadNumberValue(c.minutes, 2);
    PadNumberValue(c.seconds, 2);
    PadNumberValue(c.millis, 3);
    ParseTimeParts(PadNumber(c.hours, 2), PadNumber(c.minutes, 2), PadNumber(c.seconds, 2), PadNumber(c.millis, 3));
  }

  lemma FormatTimeInjective(a: nat, b: nat)
    requires FormatTime(a) == FormatTime(b)
    ensures a == b
  {
    FormatTimeRoundTrip(a);
    FormatTimeRoundTrip(b);
  }

  /** Below 100 hours the stamp is exactly 12 characters, every field zero-padded. */
  lemma FormatTimeFixedWidth(t: nat)
    requires t < 100 * 3600 * 1000
    ensures |FormatTime(t)| == 12
  {
    FormatTimeFields(t);
    SplitFields(t);
    PadNumberWidth(Split(t).hours, 2);
  }

  /** One subtitle cue; `text` is the collected text, which is stripped when the cue is written. */
  datatype Cue = Cue(index: nat, start: nat, end: nat, text: string)

  /** `current_text`: every word's text followed by one space. */
  function JoinWords(ws: seq<Word>): string {
    if ws == [] then "" else JoinWords(ws[..|ws| - 1]) + TextOf(ws[|ws| - 1]) + " "
  }

  /** The cue numbered `index` made of the words of `chunk`. */
  function ChunkCue(index: nat, chunk: seq<Word>): Cue
    requires chunk != []
  {
    Cue(index, StartOf(chunk[0]), EndOf(chunk[|chunk| - 1]), JoinWords(chunk))
  }

  /** The cues of `words`, numbered from `first`: ten words at a time, the last cue taking what is left. */
  function Cues(words: seq<Word>, first: nat): seq<Cue>
    decreases |words|
  {
    if words == [] then []
    else if |words| <= 10 then [ChunkCue(first, words)]
    else [ChunkCue(first, words[..10])] + Cues(words[10..], first + 1)
  }

  function Min(a: int, b: int): int { if a < b then a else b }

  /** The number of cues for `n` words: one per ten words, and one for a shorter rest. */
  function CueCount(n: nat): nat {
    if n == 0 then 0 else if n <= 10 then 1 else 1 + CueCount(n - 10)
  }

  /** Cue `k` (from 0) exists exactly when its first word does. */
  lemma {:induction false} CueCountBound(n: nat, k: nat)
    ensures k < CueCount(n) <==> 10 * k < n
  {
    if n > 10 && k > 0 {
      CueCountBound(n - 10, k - 1);
    }
  }

  /** So there are ceil(n / 10) cues. */
  lemma {:induction false} CueCountCeiling(n: nat)
    ensures CueCount(n) == (n + 9) / 10
  {
    if n > 10 {
      CueCountCeiling(n - 10);
    }
  }

  /** Words 10k .. min(10k + 10, n) - 1: the words of cue `k` (from 0). */
  function Chunk(words: seq<Word>, k: nat): (ws: seq<Word>)
    requires 10 * k < |words|
    ensures ws != []
  {
    words[10 * k..Min(10 * k + 10, |words|)]
  }

  lemma ChunkAfterFirst(words: seq<Word>, j: nat)
    requires |words| > 10 && 10 * j < |words| - 10
    ensures Chunk(words[10..], j) == Chunk(words, j + 1)
  {
  }

  /** There are ceil(n / 10) cues for `n` words. */
  lemma {:induction false} CuesLength(words: seq<Word>, first: nat)
    ensures |Cues(words, first)| == CueCount(|words|)
    decreases |words|
  {
    if |words| > 10 {
      CuesLength(words[10..], first + 1);
    }
  }

  /** Cue `k` (from 0) is numbered `first + k` and holds the words of `Chunk(words, k)`. */
  lemma {:induction false} CueAt(words: seq<Word>, first: nat, k: nat)
    requires 10 * k < |words|
    ensures k < |Cues(words, first)|
    ensures Cues(words, first)[k] == ChunkCue(first + k, Chunk(words, k))
    decreases |words|
  {
    var n := |words|;
    if n > 10 {
      var rest := words[10..];
      assert Cues(words, first) == [ChunkCue(first, words[..10])] + Cues(rest, first + 1);
      if k == 0 {
        assert words[..10] == Chunk(words, 0);
      } else {
        CueAt(rest, first + 1, k - 1);
        ChunkAfterFirst(words, k - 1);
      }
    } else {
      assert Chunk(words, 0) == words;
    }
  }

  /** One cue in SRT form. */
  function RenderCue(c: Cue): string {
    Digits(c.index) + "\n" + FormatTime(c.start) + " --> " + FormatTime(c.end) + "\n" + Strip(c.text) + "\n\n"
  }

  function Render(cs: seq<Cue>): string {
    if cs == [] then "" else Render(cs[..|cs| - 1]) + RenderCue(cs[|cs| - 1])
  }

  /** The SRT document for `words`. */
  function SrtOf(words: seq<Word>): string {
    Render(Cues(words, 1))
  }

  /** No words, no cues: the document is empty. */
  lemma {:induction false} SrtOfEmpty()
    ensures SrtOf([]) == ""
  {
  }

  /** What the document holds for `n` > 0 words: ceil(n / 10) cues, numbered
      1, 2, 3, ... in order; cue k starts at its first word's start, ends at its
      last word's end, and carries its words' texts, space separated and stripped. */
  lemma SrtOfCues(words: seq<Word>, k: nat)
    requires k < CueCount(|words|)
    ensures |Cues(words, 1)| == CueCount(|words|) && k < |Cues(words, 1)|
    ensures var lo, hi := 10 * k, Min(10 * k + 10, |words|);
      lo < hi && k < |Cues(words, 1)| &&
      Cues(words, 1)[k] == Cue(k + 1, StartOf(words[lo]), EndOf(words[hi - 1]), JoinWords(words[lo..hi]))
  {
    CueCountBound(|words|, k);
    CuesLength(words, 1);
    CueAt(words, 1, k);
    ChunkEnds(words, k);
  }

  /** The first and last words of chunk `k`. */
  lemma ChunkEnds(words: seq<Word>, k: nat)
    requires 10 * k < |words|
    ensures var ws, lo, hi := Chunk(words, k), 10 * k, Min(10 * k + 10, |words|);
      && lo < hi && ws == words[lo..hi] && ws[0] == words[lo] && ws[|ws| - 1] == words[hi - 1]
  {
    var lo, hi := 10 * k, Min(10 * k + 10, |words|);
    var ws := words[lo..hi];
    assert |ws| - 1 == hi - 1 - lo;
    assert ws[hi - 1 - lo] == words[hi - 1];
  }

  lemma JoinWordsNext(words: seq<Word>, lo: nat, i: nat)
    requires lo <= i < |words|
    ensures JoinWords(words[lo..i + 1]) == JoinWords(words[lo..i]) + TextOf(words[i]) + " "
  {
    assert words[lo..i + 1][..i - lo] == words[lo..i];
  }

  lemma JoinWordsNone(words: seq<Word>, k: nat)
    requires k <= |words|
    ensures JoinWords(words[k..k]) == ""
  {
    assert words[k..k] == [];
  }

  lemma RenderSnoc(cs: seq<Cue>, cue: Cue)
    ensures Render(cs + [cue]) == Render(cs) + RenderCue(cue)
  {
    assert (cs + [cue])[..|cs|] == cs;
  }

  lemma PrefixNext(cs: seq<Cue>, c: nat)
    requires c < |cs|
    ensures cs[..c] + [cs[c]] == cs[..c + 1]
  {
  }

  /** Word `i` lies in cue `c`; it closes the cue when `(i + 1) % 10 == 0` or it is the last word. */
  lemma NextWordPosition(i: nat, n: nat, c: nat)
    requires 10 * c <= i < 10 * c + 10 && i < n
    ensures c < CueCount(n)
    ensures (i + 1) % 10 == 0 <==> i + 1 == 10 * c + 10
    ensures i == n - 1 ==> c + 1 == CueCount(n)
  {
    CueCountBound(n, c);
    CueCountBound(n, c + 1);
  }

  /** The cue that word `i` closes is cue `c` of the document. */
  lemma ClosingCue(words: seq<Word>, c: nat, i: nat, current: string, start: nat)
    requires 10 * c <= i < 10 * c + 10 && i < |words|
    requires i + 1 == 10 * c + 10 || i == |words| - 1
    requires current == JoinWords(words[10 * c..i + 1])
    requires start == StartOf(words[10 * c])
    ensures c < |Cues(words, 1)|
    ensures Cues(words, 1)[c] == Cue(c + 1, start, EndOf(words[i]), current)
  {
    CueCountBound(|words|, c);
    assert Min(10 * c + 10, |words|) == i + 1;
    CueAt(words, 1, c);
    var ws := words[10 * c..i + 1];
    assert Chunk(words, c) == ws;
    assert |ws| - 1 == i - 10 * c;
    assert ws[0] == words[10 * c];
    assert ws[i - 10 * c] == words[i];
  }

  /** Appends one cue's block, `"{index}\n{start} --> {end}\n{text}\n\n"`, to the document. */
  method AppendCue(srt: string, cue: Cue, ghost done: seq<Cue>) returns (r: string)
    requires srt == Render(done)
    ensures r == Render(done + [cue])
  {
    var block := Digits(cue.index) + "\n" + FormatTime(cue.start) + " --> " + FormatTime(cue.end) + "\n" + Strip(cue.text) + "\n\n";
    RenderSnoc(done, cue);
    r := srt + block;
  }

  /** Where `convert_to_srt` stands before word `i`: `c` cues written as `srt`, the next
      numbered `index`, and the words since the last cue collected in `current`, the first
      one's start held in `startTime`. */
  ghost predicate Progress(words: seq<Word>, i: nat, c: nat, srt: string, index: nat, current: string, startTime: Option<nat>) {
    && i <= |words| && index == c + 1
    && c <= |Cues(words, 1)| && srt == Render(Cues(words, 1)[..c])
    && (i < |words| ==>
          && 10 * c <= i < 10 * c + 10
          && current == JoinWords(words[10 * c..i])
          && startTime == if i == 10 * c then None else Some(StartOf(words[10 * c])))
    && (i == |words| ==> c == CueCount(|words|))
  }

  /** Before the first word nothing is written and no cue is open. */
  lemma ProgressStart(words: seq<Word>)
    ensures Progress(words, 0, 0, "", 1, "", None)
  {
    assert Cues(words, 1)[..0] == [];
    if |words| > 0 {
      JoinWordsNone(words, 0);
    }
  }

  /** After the last word the document is complete. */
  lemma ProgressDone(words: seq<Word>, c: nat, srt: string, index: nat, current: string, startTime: Option<nat>)
    requires Progress(words, |words|, c, srt, index, current, startTime)
    ensures srt == SrtOf(words)
  {
    CuesLength(words, 1);
    assert Cues(words, 1)[..c] == Cues(words, 1);
  }

  /** Word `i` joins the open cue: its text is appended, and the cue's start is the start of its first word. */
  lemma OpenCueNext(words: seq<Word>, i: nat, c: nat, current: string, startTime: Option<nat>)
    requires i < |words| && 10 * c <= i < 10 * c + 10
    requires current == JoinWords(words[10 * c..i])
    requires startTime == if i == 10 * c then None else Some(StartOf(words[10 * c]))
    ensures current + TextOf(words[i]) + " " == JoinWords(words[10 * c..i + 1])
    ensures (if startTime.None? then Some(StartOf(words[i])) else startTime) == Some(StartOf(words[10 * c]))
  {
    JoinWordsNext(words, 10 * c, i);
  }

  /** After word `i` closes cue `c`, the next word opens cue `c + 1`. */
  lemma ProgressClosed(words: seq<Word>, i: nat, c: nat, srt: string)
    requires i < |words| && 10 * c <= i < 10 * c + 10
    requires i + 1 == 10 * c + 10 || i == |words| - 1
    requires c < |Cues(words, 1)| && srt == Render(Cues(words, 1)[..c + 1])
    ensures Progress(words, i + 1, c + 1, srt, c + 2, "", None)
  {
    if i + 1 < |words| {
      assert 10 * (c + 1) == i + 1;
      JoinWordsNone(words, i + 1);
    } else {
      NextWordPosition(i, |words|, c);
    }
  }

  /** A word that does not close its cue leaves it open for the next word. */
  lemma ProgressOpen(words: seq<Word>, i: nat, c: nat, srt: string, current: string, startTime: Option<nat>)
    requires i + 1 < |words| && 10 * c <= i && i + 1 < 10 * c + 10
    requires c <= |Cues(words, 1)| && srt == Render(Cues(words, 1)[..c])
    requires current == JoinWords(words[10 * c..i + 1]) && startTime == Some(StartOf(words[10 * c]))
    ensures Progress(words, i + 1, c, srt, c + 1, current, startTime)
  {
  }

  /** One turn of the loop in `convert_to_srt`: word `i` joins the open cue, which is written
      out after every tenth word and after the last. */
  method AddWord(words: seq<Word>, i: nat, srt: string, index: nat, current: string, startTime: Option<nat>, ghost c: nat)
    returns (srt': string, index': nat, current': string, startTime': Option<nat>, ghost c': nat)
    requires i < |words| && Progress(words, i, c, srt, index, current, startTime)
    ensures Progress(words, i + 1, c', srt', index', current', startTime')
  {
    var n := |words|;
    var word := words[i];
    NextWordPosition(i, n, c);
    OpenCueNext(words, i, c, current, startTime);
    srt', index', startTime', c' := srt, index, startTime, c;
    if startTime'.None? {
      startTime' := Some(StartOf(word));
    }
    current' := current + TextOf(word) + " ";
    if (i + 1) % 10 == 0 || i == n - 1 {
      var endTime := EndOf(word);
      ClosingCue(words, c, i, current', startTime'.value);
      PrefixNext(Cues(words, 1), c);
      srt' := AppendCue(srt', Cue(index', startTime'.value, endTime, current'), Cues(words, 1)[..c]);
      index' := index' + 1;
      c' := c' + 1;
      current' := "";
      startTime' := None;
      ProgressClosed(words, i, c, srt');
    } else {
      ProgressOpen(words, i, c, srt', current', startTime');
    }
  }

  /** `convert_to_srt`: walks the words once, emitting a cue after every tenth word and after the last. */
  method ConvertToSrt(words: seq<Word>) returns (srt: string)
    ensures srt == SrtOf(words)
  {
    if |words| == 0 {
      return "";
    }
    srt := "";
    var index: nat := 1;
    var current := "";
    var startTime: Option<nat> := None;
    ghost var c: nat := 0;
    var n := |words|;
    ProgressStart(words);
    for i := 0 to n
      invariant Progress(words, i, c, srt, index, current, startTime)
    {
      srt, index, current, startTime, c := AddWord(words, i, srt, index, current, startTime, c);
    }
    ProgressDone(words, c, srt, index, current, startTime);
  }
}
