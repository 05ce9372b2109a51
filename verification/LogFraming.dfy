/** How the output of a command is cut out of the log of the job that ran it
    (internal/controller/jobrunner, the callbacks of RunHelmCommand and RunHostCommand). */
module LogFraming {

  // ---------------------------------------------------------------- string functions of the library

  predicate OccursAt(s: string, m: string, i: int) {
    0 <= i && i + |m| <= |s| && s[i..i + |m|] == m
  }

  predicate Absent(s: string, m: string) {
    forall i :: 0 <= i <= |s| ==> !OccursAt(s, m, i)
  }

  /** `strings.Index`: the first occurrence, -1 when there is none. */
  ghost function Index(s: string, m: string): (r: int)
    ensures r == -1 || 0 <= r <= |s| - |m|
  {
    if Absent(s, m) then -1
    else
      FirstOccurrence(s, m, |s|);
      var r :| OccursAt(s, m, r) && forall i :: 0 <= i < r ==> !OccursAt(s, m, i);
      r
  }

  lemma {:induction false} FirstOccurrence(s: string, m: string, k: nat)
    requires exists i :: 0 <= i <= k && OccursAt(s, m, i)
    ensures exists r :: OccursAt(s, m, r) && forall i :: 0 <= i < r ==> !OccursAt(s, m, i)
  {
    if !OccursAt(s, m, k) || exists i :: 0 <= i < k && OccursAt(s, m, i) {
      FirstOccurrence(s, m, k - 1);
    }
  }

  lemma IndexIsFirst(s: string, m: string)
    ensures Index(s, m) == -1 <==> Absent(s, m)
    ensures Index(s, m) != -1 ==> OccursAt(s, m, Index(s, m))
    ensures forall i :: 0 <= i < Index(s, m) ==> !OccursAt(s, m, i)
  {
  }

  method Search(s: string, m: string) returns (r: int)
    ensures r == Index(s, m)
  {
    r := 0;
    while r <= |s|
      invariant 0 <= r <= |s| + 1
      invariant forall i :: 0 <= i < r ==> !OccursAt(s, m, i)
    {
      if OccursAt(s, m, r) { return; }
      r := r + 1;
    }
    r := -1;
  }

  predicate IsSpace(c: char) {
    || c == ' ' || 0x09 <= c as int <= 0x0D || c as int == 0x85 || c as int == 0xA0
    || c as int == 0x1680 || 0x2000 <= c as int <= 0x200A || c as int == 0x2028 || c as int == 0x2029
    || c as int == 0x202F || c as int == 0x205F || c as int == 0x3000
  }

  function LeadingSpaces(s: string): (n: nat)
    ensures n <= |s|
    ensures n < |s| ==> !IsSpace(s[n])
  {
    if s != [] && IsSpace(s[0]) then 1 + LeadingSpaces(s[1..]) else 0
  }

  function TrimRight(s: string): (r: string)
    ensures r <= s
    ensures r != [] ==> !IsSpace(r[|r| - 1])
  {
    if s != [] && IsSpace(s[|s| - 1]) then TrimRight(s[..|s| - 1]) else s
  }

  lemma {:induction false} TrimRightKeeps(s: string, k: nat)
    requires k < |s| && !IsSpace(s[k])
    ensures |TrimRight(s)| > k
  {
    if IsSpace(s[|s| - 1]) {
      TrimRightKeeps(s[..|s| - 1], k);
    }
  }

  /** `strings.TrimSpace`. */
  function TrimSpace(s: string): (r: string)
    ensures r != [] ==> !IsSpace(r[0]) && !IsSpace(r[|r| - 1])
  {
    TrimRight(s[LeadingSpaces(s)..])
  }

  /** White space is cut off at both ends, and nothing else. */
  lemma TrimIsExact(s: string, a: nat, b: nat)
    requires a <= b <= |s|
    requires forall i :: 0 <= i < a ==> IsSpace(s[i])
    requires forall i :: b <= i < |s| ==> IsSpace(s[i])
    requires a < b ==> !IsSpace(s[a]) && !IsSpace(s[b - 1])
    ensures TrimSpace(s) == s[a..b]
  {
    LeadingExactly(s, a, b);
    var rest := s[LeadingSpaces(s)..];
    if a < b {
      assert rest == s[a..];
      RightExactly(rest, b - a);
      assert rest[..b - a] == s[a..b];
    } else {
      RightExactly(rest, 0);
    }
  }

  lemma {:induction false} LeadingExactly(s: string, a: nat, b: nat)
    requires a <= b <= |s| && forall i :: 0 <= i < a ==> IsSpace(s[i])
    ensures a < b && !IsSpace(s[a]) ==> LeadingSpaces(s) == a
    ensures LeadingSpaces(s) >= a
  {
    if a > 0 { LeadingExactly(s[1..], a - 1, b - 1); }
  }

  lemma {:induction false} RightExactly(s: string, n: nat)
    requires n <= |s| && forall i :: n <= i < |s| ==> IsSpace(s[i])
    requires n > 0 ==> !IsSpace(s[n - 1])
    ensures TrimRight(s) == s[..n]
  {
    if n < |s| {
      RightExactly(s[..|s| - 1], n);
      assert s[..|s| - 1][..n] == s[..n];
    } else {
      assert s[..n] == s;
    }
  }

  lemma TrimNothing()
    ensures TrimSpace("") == ""
  {
  }

  lemma {:induction false} LeadingOfPrefix(s: string, q: nat)
    requires q < |s| && !IsSpace(s[q])
    ensures LeadingSpaces(s[..q]) == LeadingSpaces(s) <= q
  {
    if IsSpace(s[0]) {
      LeadingOfPrefix(s[1..], q - 1);
      assert s[..q][1..] == s[1..][..q - 1];
    }
  }

  /** Cutting a text short before a visible character changes what remains after trimming. */
  lemma TrimOfPrefix(s: string, q: nat)
    requires q < |s| && !IsSpace(s[q])
    ensures TrimSpace(s[..q]) != TrimSpace(s)
  {
    LeadingOfPrefix(s, q);
    var a := LeadingSpaces(s);
    TrimRightKeeps(s[a..], q - a);
  }

  // ---------------------------------------------------------------- the callback

  datatype Markers = Markers(output: string, error: string, end: string)

  const HELM := Markers("=== Helm Command Output ===",
                        "=== Helm Command Error Output ===",
                        "=== End of Helm Command Output ===")
  const HOST := Markers("=== Command Output ===",
                        "=== Command Error Output ===",
                        "=== End of Command Output ===")

  /** `OutOfBounds`: a slice with its bounds the wrong way round, a run-time panic; `output` has been
      written when only the second slice is. */
  datatype Capture = Nothing | OutOfBounds(output: string) | Captured(output: string, error: string)

  /** The two sections between the markers, before trimming. */
  function CutAt(mk: Markers, log: string, outputStart: int, errorStart: int, endMarker: int): Capture
    requires errorStart <= |log| && endMarker <= |log|
  {
    if outputStart < 0 then Nothing
    else if errorStart > outputStart && endMarker > errorStart then
      if outputStart + |mk.output| + 1 > errorStart then OutOfBounds("")
      else if errorStart + |mk.error| + 1 > endMarker then OutOfBounds(log[outputStart + |mk.output| + 1..errorStart])
      else Captured(log[outputStart + |mk.output| + 1..errorStart],
                    log[errorStart + |mk.error| + 1..endMarker])
    else Nothing
  }

  ghost function Cut(mk: Markers, log: string): Capture {
    CutAt(mk, log, Index(log, mk.output), Index(log, mk.error), Index(log, mk.end))
  }

  function Trimmed(c: Capture): Capture {
    match c
    case Nothing => Nothing
    case OutOfBounds(output) => OutOfBounds(TrimSpace(output))
    case Captured(output, error) => Captured(TrimSpace(output), TrimSpace(error))
  }

  /** What the callback makes of a log. */
  ghost function Extract(mk: Markers, log: string): Capture {
    Trimmed(Cut(mk, log))
  }

  function OutputOf(c: Capture): string {
    if c.Nothing? then "" else c.output
  }

  function ErrorOf(c: Capture): string {
    if c.Captured? then c.error else ""
  }

  /** The two string builders a callback closes over. */
  class Buffers {
    var output: string
    var error: string

    constructor ()
      ensures output == "" && error == ""
    {
      output, error := "", "";
    }

    method Callback(mk: Markers, log: string) returns (panicked: bool)
      modifies this
      ensures panicked <==> Extract(mk, log).OutOfBounds?
      ensures output == old(output) + OutputOf(Extract(mk, log))
      ensures error == old(error) + ErrorOf(Extract(mk, log))
    {
      TrimNothing();
      hide Index, TrimSpace;
      ghost var c := Cut(mk, log);
      panicked := false;
      var outputStart := Search(log, mk.output);
      if outputStart >= 0 {
        var errorStart := Search(log, mk.error);
        var endMarker := Search(log, mk.end);
        if errorStart > outputStart && endMarker > errorStart {
          if outputStart + |mk.output| + 1 > errorStart {
            assert c == OutOfBounds("");
            return true;
          }
          var out := log[outputStart + |mk.output| + 1..errorStart];
          output := output + TrimSpace(out);
          if errorStart + |mk.error| + 1 > endMarker {
            assert c == OutOfBounds(out);
            return true;
          }
          var err := log[errorStart + |mk.error| + 1..endMarker];
          assert c == Captured(out, err);
          error := error + TrimSpace(err);
          return;
        }
      }
      assert c == Nothing;
    }
  }

  // ---------------------------------------------------------------- the printed log

  /** What the script prints: earlier lines, the marker lines around the two files, and the rest. */
  function Log(mk: Markers, head: string, out: string, err: string, tail: string): string {
    head + (mk.output + ("\n" + Body(mk, out, err, tail)))
  }

  function Body(mk: Markers, out: string, err: string, tail: string): string {
    out + (mk.error + ("\n" + (err + (mk.end + tail))))
  }

  predicate SingleLine(m: string) {
    m != "" && !IsSpace(m[0]) && forall i :: 0 <= i < |m| ==> m[i] != '\n'
  }

  predicate Lines(s: string) {
    s == "" || s[|s| - 1] == '\n'
  }

  /** Markers are visible single lines, and no later marker occurs inside an earlier one. */
  predicate WellFormed(mk: Markers) {
    && SingleLine(mk.output) && SingleLine(mk.error) && SingleLine(mk.end)
    && Absent(mk.output, mk.error) && Absent(mk.output, mk.end) && Absent(mk.error, mk.end)
  }

  lemma TooLong(s: string, m: string)
    requires |s| < |m|
    ensures Absent(s, m)
  {
  }

  lemma HelmLines()
    ensures SingleLine(HELM.output) && SingleLine(HELM.error)
  {
  }

  lemma HelmMarkersWellFormed()
    ensures WellFormed(HELM)
  {
    HelmLines();
    TooLong(HELM.output, HELM.error);
    TooLong(HELM.output, HELM.end);
    TooLong(HELM.error, HELM.end);
  }

  lemma HostLines()
    ensures SingleLine(HOST.output) && SingleLine(HOST.error)
  {
  }

  lemma HostMarkersWellFormed()
    ensures WellFormed(HOST)
  {
    HostLines();
    TooLong(HOST.output, HOST.error);
    TooLong(HOST.output, HOST.end);
    TooLong(HOST.error, HOST.end);
  }

  predicate CleanHead(mk: Markers, head: string) {
    Lines(head) && Absent(head, mk.output) && Absent(head, mk.error) && Absent(head, mk.end)
  }

  /** The outputs do not forge a marker, not even together with the start of the marker printed
      after them: a text without a final newline can. */
  predicate Unforged(mk: Markers, out: string, err: string)
    requires WellFormed(mk)
  {
    && Absent(out + mk.error[..|mk.error| - 1], mk.error)
    && Absent(out + mk.error, mk.end)
    && Absent(err + mk.end[..|mk.end| - 1], mk.end)
  }

  // ---------------------------------------------------------------- occurrences across line ends

  lemma NoStraddling(p: string, s: string, m: string, i: nat)
    requires Lines(p) && SingleLine(m) && i < |p| < i + |m|
    ensures !OccursAt(p + s, m, i)
  {
    if i + |m| <= |p + s| {
      var window := (p + s)[i..i + |m|];
      assert window[|p| - 1 - i] == '\n';
    }
  }

  lemma OccurrenceAfterLines(p: string, s: string, m: string, i: int)
    requires Lines(p) && SingleLine(m)
    ensures OccursAt(p + s, m, i) <==> OccursAt(p, m, i) || OccursAt(s, m, i - |p|)
  {
    var t := p + s;
    if 0 <= i && i + |m| <= |p| {
      assert p[i..i + |m|] == t[i..i + |m|];
    } else if |p| <= i && i + |m| <= |t| {
      assert s[i - |p|..i - |p| + |m|] == t[i..i + |m|];
    } else if 0 <= i < |p| {
      NoStraddling(p, s, m, i);
    }
  }

  lemma AbsentAfterLines(p: string, s: string, m: string)
    requires Lines(p) && SingleLine(m) && Absent(p, m) && Absent(s, m)
    ensures Absent(p + s, m)
  {
    forall i | 0 <= i <= |p + s| ensures !OccursAt(p + s, m, i) {
      OccurrenceAfterLines(p, s, m, i);
    }
  }

  lemma IndexUnique(s: string, m: string, k: nat)
    requires OccursAt(s, m, k) && forall i :: 0 <= i < k ==> !OccursAt(s, m, i)
    ensures Index(s, m) == k
  {
    IndexIsFirst(s, m);
  }

  /** Complete lines that do not hold the marker only shift its first occurrence. */
  lemma IndexAfterLines(p: string, s: string, m: string)
    requires Lines(p) && SingleLine(m) && Absent(p, m) && Index(s, m) >= 0
    ensures Index(p + s, m) == |p| + Index(s, m)
  {
    var k := Index(s, m);
    IndexIsFirst(s, m);
    OccurrenceAfterLines(p, s, m, |p| + k);
    forall i | 0 <= i < |p| + k ensures !OccursAt(p + s, m, i) {
      OccurrenceAfterLines(p, s, m, i);
    }
    IndexUnique(p + s, m, |p| + k);
  }

  lemma AbsentInLine(line: string, m: string)
    requires SingleLine(m) && Absent(line, m)
    ensures Absent(line + "\n", m)
  {
    var t := line + "\n";
    forall i | 0 <= i <= |t| ensures !OccursAt(t, m, i) {
      if i + |m| <= |line| {
        assert line[i..i + |m|] == t[i..i + |m|];
        assert !OccursAt(line, m, i);
      } else if i + |m| == |t| {
        assert t[i..i + |m|][|m| - 1] == '\n';
      }
    }
  }

  lemma IndexAfterLine(line: string, s: string, m: string)
    requires SingleLine(m) && Absent(line, m) && Index(s, m) >= 0
    ensures Index(line + ("\n" + s), m) == |line| + 1 + Index(s, m)
  {
    AbsentInLine(line, m);
    IndexAfterLines(line + "\n", s, m);
    assert line + ("\n" + s) == (line + "\n") + s;
  }

  /** A marker printed right after `s` is found there, or earlier when `s` forges it. */
  lemma IndexOfPrinted(s: string, m: string, rest: string)
    requires m != ""
    ensures 0 <= Index(s + (m + rest), m) <= |s|
    ensures Index(s + (m + rest), m) == |s| <==> Absent(s + m[..|m| - 1], m)
  {
    var t, u := s + (m + rest), s + m[..|m| - 1];
    assert t[|s|..|s| + |m|] == m;
    assert OccursAt(t, m, |s|);
    assert t[..|u|] == u;
    IndexIsFirst(t, m);
    var r := Index(t, m);
    if r < |s| {
      assert u[r..r + |m|] == t[r..r + |m|];
      assert OccursAt(u, m, r);
    } else {
      forall i | 0 <= i <= |u| ensures !OccursAt(u, m, i) {
        if i + |m| <= |u| {
          assert u[i..i + |m|] == t[i..i + |m|];
          assert !OccursAt(t, m, i);
        }
      }
    }
  }

  // ---------------------------------------------------------------- the round trip

  /** Both later markers are in the body; the end marker is found after the error line when the
      output does not hold it, and before that line otherwise. */
  lemma BodyPositions(mk: Markers, out: string, err: string, tail: string)
    requires WellFormed(mk)
    ensures var body := Body(mk, out, err, tail);
            var k := Index(err + (mk.end + tail), mk.end);
            && 0 <= Index(body, mk.error) <= |out|
            && (Index(body, mk.error) == |out| <==> Absent(out + mk.error[..|mk.error| - 1], mk.error))
            && 0 <= k <= |err|
            && (k == |err| <==> Absent(err + mk.end[..|mk.end| - 1], mk.end))
            && 0 <= Index(body, mk.end)
            && (Absent(out + mk.error, mk.end) ==> Index(body, mk.end) == |out| + |mk.error| + 1 + k)
            && (!Absent(out + mk.error, mk.end) ==> Index(body, mk.end) < |out|)
  {
    var rest := err + (mk.end + tail);
    var body := Body(mk, out, err, tail);
    IndexOfPrinted(out, mk.error, "\n" + rest);
    IndexOfPrinted(err, mk.end, tail);
    var first := out + mk.error;
    assert body == first + ("\n" + rest);
    if Absent(first, mk.end) {
      IndexAfterLine(first, rest, mk.end);
    } else {
      EarlyEnd(mk, out, "\n" + rest);
    }
  }

  lemma EarlyEnd(mk: Markers, out: string, rest: string)
    requires WellFormed(mk) && !Absent(out + mk.error, mk.end)
    ensures 0 <= Index((out + mk.error) + rest, mk.end) < |out|
  {
    var first, m := out + mk.error, mk.end;
    var i :| 0 <= i <= |first| && OccursAt(first, m, i);
    assert (first + rest)[i..i + |m|] == first[i..i + |m|];
    assert OccursAt(first + rest, m, i);
    if i >= |out| {
      assert mk.error[i - |out|..i - |out| + |m|] == first[i..i + |m|];
      assert OccursAt(mk.error, m, i - |out|);
    }
    IndexIsFirst(first + rest, m);
  }

  lemma IndexInLog(head: string, line: string, body: string, m: string)
    requires Lines(head) && SingleLine(m) && Absent(head, m) && Absent(line, m) && Index(body, m) >= 0
    ensures Index(head + (line + ("\n" + body)), m) == |head| + |line| + 1 + Index(body, m)
  {
    IndexAfterLine(line, body, m);
    IndexAfterLines(head, line + ("\n" + body), m);
  }

  lemma IndexOfOutputMarker(head: string, line: string, body: string)
    requires Lines(head) && SingleLine(line) && Absent(head, line)
    ensures Index(head + (line + ("\n" + body)), line) == |head|
  {
    var rest := line + ("\n" + body);
    assert rest[0..|line|] == line;
    IndexUnique(rest, line, 0);
    IndexAfterLines(head, rest, line);
  }

  /** The callback on a printed log, seen from the line after the output marker. */
  function SectionAt(mk: Markers, body: string, q: nat, e: nat): Capture
    requires q <= |body| && e <= |body|
  {
    if e <= q then Nothing
    else if q + |mk.error| + 1 > e then OutOfBounds(body[..q])
    else Captured(body[..q], body[q + |mk.error| + 1..e])
  }

  ghost function Section(mk: Markers, body: string): Capture
    requires Index(body, mk.error) >= 0 && Index(body, mk.end) >= 0
  {
    SectionAt(mk, body, Index(body, mk.error), Index(body, mk.end))
  }

  lemma SliceOfSuffix(s: string, start: nat, a: nat, b: nat)
    requires start + b <= |s| && a <= b
    ensures s[start + a..start + b] == s[start..][a..b]
  {
  }

  lemma CutAtIsSectionAt(mk: Markers, log: string, h: nat, q: nat, e: nat)
    requires h + |mk.output| + 1 <= |log|
    requires q <= |log| - (h + |mk.output| + 1) && e <= |log| - (h + |mk.output| + 1)
    ensures var start := h + |mk.output| + 1;
            CutAt(mk, log, h, start + q, start + e) == SectionAt(mk, log[start..], q, e)
  {
    var start := h + |mk.output| + 1;
    SliceOfSuffix(log, start, 0, q);
    assert log[start..start + q] == log[start..][..q];
    if q + |mk.error| + 1 <= e {
      SliceOfSuffix(log, start, q + |mk.error| + 1, e);
    }
  }

  lemma CutIsSection(mk: Markers, head: string, body: string)
    requires WellFormed(mk) && CleanHead(mk, head)
    requires Index(body, mk.error) >= 0 && Index(body, mk.end) >= 0
    ensures Cut(mk, head + (mk.output + ("\n" + body))) == Section(mk, body)
  {
    hide Index;
    var log := head + (mk.output + ("\n" + body));
    IndexOfOutputMarker(head, mk.output, body);
    IndexInLog(head, mk.output, body, mk.error);
    IndexInLog(head, mk.output, body, mk.end);
    assert log[|head| + |mk.output| + 1..] == body;
    CutAtIsSectionAt(mk, log, |head|, Index(body, mk.error), Index(body, mk.end));
  }

  /** An output that forges the error marker comes out shorter. */
  lemma ForgedOutput(mk: Markers, out: string, rest: string)
    requires WellFormed(mk)
    requires var q := Index(out + rest, mk.error); 0 <= q < |out|
    ensures TrimSpace((out + rest)[..Index(out + rest, mk.error)]) != TrimSpace(out)
  {
    var body := out + rest;
    var q := Index(body, mk.error);
    IndexIsFirst(body, mk.error);
    assert body[q..q + |mk.error|][0] == out[q];
    assert body[..q] == out[..q];
    TrimOfPrefix(out, q);
  }

  /** An error output that forges the end marker comes out shorter. */
  lemma ForgedError(mk: Markers, err: string, tail: string)
    requires WellFormed(mk)
    requires 0 <= Index(err + (mk.end + tail), mk.end) <= |err|
    ensures var k := Index(err + (mk.end + tail), mk.end);
            k < |err| ==> TrimSpace(err[..k]) != TrimSpace(err)
  {
    var rest := err + (mk.end + tail);
    var k := Index(rest, mk.end);
    if k < |err| {
      IndexIsFirst(rest, mk.end);
      assert rest[k..k + |mk.end|][0] == err[k];
      TrimOfPrefix(err, k);
    }
  }

  lemma BodyStarts(mk: Markers, out: string, err: string, tail: string)
    ensures |Body(mk, out, err, tail)| == |out| + |mk.error| + 1 + |err| + |mk.end| + |tail|
    ensures Body(mk, out, err, tail)[..|out|] == out
  {
  }

  /** A search that stops inside the output yields another text. */
  lemma ForgedSection(mk: Markers, out: string, body: string, err: string, q: nat, e: nat)
    requires |out| <= |body| && body[..|out|] == out && q < |out| && e <= |body|
    requires TrimSpace(out[..q]) != TrimSpace(out)
    ensures Trimmed(SectionAt(mk, body, q, e)) != Captured(TrimSpace(out), TrimSpace(err))
  {
    hide TrimSpace;
    assert body[..q] == out[..q];
  }

  /** Searches that stop at the printed error marker and behind it yield the output and, up to the
      end marker found, the error output. */
  lemma PrintedSection(mk: Markers, out: string, err: string, tail: string, k: nat)
    requires k <= |err|
    ensures SectionAt(mk, Body(mk, out, err, tail), |out|, |out| + |mk.error| + 1 + k) == Captured(out, err[..k])
  {
    var body, rest := Body(mk, out, err, tail), err + (mk.end + tail);
    var before := out + mk.error + "\n";
    assert body == before + rest;
    assert body[|before|..|before| + k] == err[..k];
    assert body[..|out|] == out;
  }

  /** The two trimmed outputs come out exactly when every search stops at the printed marker. */
  lemma SectionAtIsExact(mk: Markers, out: string, err: string, tail: string, q: nat, e: nat, k: nat)
    requires q <= |out| && k <= |err|
    requires e < |out| || e == |out| + |mk.error| + 1 + k
    requires q < |out| ==> TrimSpace(out[..q]) != TrimSpace(out)
    requires k < |err| ==> TrimSpace(err[..k]) != TrimSpace(err)
    requires q == |out| && e < |out| ==> e < q
    ensures Trimmed(SectionAt(mk, Body(mk, out, err, tail), q, e)) == Captured(TrimSpace(out), TrimSpace(err))
            <==> q == |out| && e == |out| + |mk.error| + 1 + k && k == |err|
  {
    hide TrimSpace, Body;
    if q < |out| {
      BodyStarts(mk, out, err, tail);
      ForgedSection(mk, out, Body(mk, out, err, tail), err, q, e);
    } else if e > |out| {
      PrintedSection(mk, out, err, tail, k);
      assert k == |err| ==> err[..k] == err;
    }
  }

  lemma SectionIsExact(mk: Markers, out: string, err: string, tail: string)
    requires WellFormed(mk)
    requires var body := Body(mk, out, err, tail); Index(body, mk.error) >= 0 && Index(body, mk.end) >= 0
    ensures Trimmed(Section(mk, Body(mk, out, err, tail))) == Captured(TrimSpace(out), TrimSpace(err))
            <==> Unforged(mk, out, err)
  {
    hide Index;
    var body := Body(mk, out, err, tail);
    BodyPositions(mk, out, err, tail);
    var q, k := Index(body, mk.error), Index(err + (mk.end + tail), mk.end);
    if q < |out| {
      ForgedOutput(mk, out, mk.error + ("\n" + (err + (mk.end + tail))));
      assert body[..q] == out[..q];
    }
    ForgedError(mk, err, tail);
    SectionAtIsExact(mk, out, err, tail, q, Index(body, mk.end), k);
  }

  /** For every log the script can print, the callback yields the two trimmed outputs if and only
      if the outputs do not forge a marker. */
  lemma CaptureIsExact(mk: Markers, head: string, out: string, err: string, tail: string)
    requires WellFormed(mk) && CleanHead(mk, head)
    ensures Extract(mk, Log(mk, head, out, err, tail)) == Captured(TrimSpace(out), TrimSpace(err))
            <==> Unforged(mk, out, err)
  {
    var body := Body(mk, out, err, tail);
    var rest := err + (mk.end + tail);
    BodyPositions(mk, out, err, tail);
    CutIsSection(mk, head, body);
    assert Extract(mk, Log(mk, head, out, err, tail)) == Trimmed(Section(mk, body));
    SectionIsExact(mk, out, err, tail);
  }

  /** Outputs made of complete lines are captured as soon as no line holds a later marker,
      although the markers begin and end alike. */
  lemma CompleteLinesAreCaptured(mk: Markers, head: string, out: string, err: string, tail: string)
    requires WellFormed(mk) && CleanHead(mk, head)
    requires Lines(out) && Absent(out, mk.error) && Absent(out, mk.end)
    requires Lines(err) && Absent(err, mk.end)
    ensures Extract(mk, Log(mk, head, out, err, tail)) == Captured(TrimSpace(out), TrimSpace(err))
  {
    AbsentAfterLines(out, mk.error[..|mk.error| - 1], mk.error);
    AbsentAfterLines(out, mk.error, mk.end);
    AbsentAfterLines(err, mk.end[..|mk.end| - 1], mk.end);
    CaptureIsExact(mk, head, out, err, tail);
  }

  /** The callback slices out of bounds exactly when the first end marker begins inside the first
      error marker after the output, or right behind it; both are then forged by the output. */
  lemma OutOfBoundsExactly(mk: Markers, head: string, out: string, err: string, tail: string)
    requires WellFormed(mk) && CleanHead(mk, head)
    ensures var body := Body(mk, out, err, tail); var q, e := Index(body, mk.error), Index(body, mk.end);
            && (Extract(mk, Log(mk, head, out, err, tail)).OutOfBounds? <==> q < e <= q + |mk.error|)
            && (Extract(mk, Log(mk, head, out, err, tail)).OutOfBounds? ==> e < |out|)
  {
    hide Index, OccursAt, TrimSpace;
    BodyPositions(mk, out, err, tail);
    CutIsSection(mk, head, Body(mk, out, err, tail));
  }

  /** It happens: an output that ends a marker early makes the slice bounds cross. */
  lemma CrossedBounds(head: string, err: string, tail: string)
    requires CleanHead(HELM, head)
    ensures Extract(HELM, Log(HELM, head, HELM.error + HELM.end[3..], err, tail)).OutOfBounds?
  {
    var mk, out := HELM, HELM.error + HELM.end[3..];
    HelmMarkersWellFormed();
    OutOfBoundsExactly(mk, head, out, err, tail);
    CrossedMarkers(mk.error + ("\n" + (err + (mk.end + tail))));
  }

  lemma CrossedMarkers(rest: string)
    ensures var body := (HELM.error + HELM.end[3..]) + rest;
            Index(body, HELM.error) == 0 && 0 < Index(body, HELM.end) <= 30
  {
    var body := (HELM.error + HELM.end[3..]) + rest;
    hide Index;
    assert body[0..|HELM.error|] == HELM.error;
    IndexUnique(body, HELM.error, 0);
    OverlappingEnd(rest);
  }

  lemma Regrouped(a: string, m: string, rest: string, k: nat)
    requires |a| == k + 3 && |m| >= 3 && a[k..] == m[..3]
    ensures (a + m[3..]) + rest == a[..k] + (m + rest)
  {
    assert a == a[..k] + m[..3] && m == m[..3] + m[3..];
  }

  lemma OverlappingEnd(rest: string)
    ensures 0 < Index((HELM.error + HELM.end[3..]) + rest, HELM.end) <= 30
  {
    hide Index;
    var m := HELM.end;
    var body := (HELM.error + m[3..]) + rest;
    Regrouped(HELM.error, m, rest, 30);
    IndexOfPrinted(HELM.error[..30], m, rest);
    HelmStarts(body);
    IndexIsFirst(body, m);
  }

  lemma HelmStarts(body: string)
    requires |body| > 4 && body[4] == HELM.error[4]
    ensures !OccursAt(body, HELM.end, 0)
  {
    if |HELM.end| <= |body| {
      assert body[0..|HELM.end|][4] == HELM.error[4] != HELM.end[4];
    }
  }
}
