/**
 Markers in a text, for any marker prefix that is a plain opening: not empty, without a line break or
 closing bracket, and not ending in white space.
 */
module Markers {
  import opened Wrappers
  import opened Strings

  const SUFFIX: string := "]"

  predicate IsOpening(prefix: string) {
    prefix != "" && '\n' !in prefix && ']' !in prefix && !IsSpace(prefix[|prefix| - 1])
  }

  function Marker(prefix: string, key: string): (marker: string) {
    prefix + key + SUFFIX
  }

  function Append(prefix: string, text: string, key: string): (marked: string) {
    if Contains(text, Marker(prefix, key)) then text
    else RStrip(text) + "\n\n" + Marker(prefix, key)
  }

  function Extract(prefix: string, text: string): (key: Option<string>)
    requires ']' !in prefix
  {
    match Find(text, prefix, 0)
    case None => None
    case Some(start) =>
      match Find(text, SUFFIX, start)
      case None => None
      case Some(end) =>
        BracketIsPastPrefix(prefix, text, start, end);
        Some(text[start + |prefix|..end])
  }

  lemma BracketIsPastPrefix(prefix: string, text: string, start: nat, end: nat)
    requires ']' !in prefix
    requires OccursAt(text, prefix, start) && OccursAt(text, SUFFIX, end) && start <= end
    ensures start + |prefix| <= end && text[end] == ']'
  {
    OccursAtChar(text, SUFFIX, end, 0);
    forall i | start <= i < start + |prefix|
      ensures text[i] != ']'
    {
      OccursAtChar(text, prefix, start, i - start);
    }
  }

  lemma MarkerBrackets(prefix: string, key: string, i: nat)
    requires ']' !in prefix && ']' !in key && i < |Marker(prefix, key)|
    ensures Marker(prefix, key)[i] == ']' <==> i == |Marker(prefix, key)| - 1
  {
  }

  lemma MarkerStartsWithPrefix(prefix: string, text: string, key: string, at: nat)
    requires OccursAt(text, Marker(prefix, key), at)
    ensures OccursAt(text, prefix, at)
  {
    assert text[at..at + |prefix|] == text[at..at + |Marker(prefix, key)|][..|prefix|] == prefix;
  }

  /** The first prefix in the text begins this key's marker. */
  predicate FirstMarkerIs(prefix: string, text: string, key: string) {
    var at := Find(text, prefix, 0);
    at.Some? && OccursAt(text, Marker(prefix, key), at.value)
  }

  /** The first closing bracket after a marker's start is the marker's own. */
  lemma MarkerEnd(prefix: string, text: string, key: string, start: nat)
    requires ']' !in prefix && ']' !in key && OccursAt(text, Marker(prefix, key), start)
    ensures Find(text, SUFFIX, start) == Some(start + |prefix| + |key|)
    ensures text[start + |prefix|..start + |prefix| + |key|] == key
  {
    var marker, last := Marker(prefix, key), start + |prefix| + |key|;
    OccursAtChar(text, marker, start, |marker| - 1);
    assert OccursAt(text, SUFFIX, last);
    forall i: nat | start <= i < last
      ensures !OccursAt(text, SUFFIX, i)
    {
      OccursAtChar(text, marker, start, i - start);
      MarkerBrackets(prefix, key, i - start);
      NoOccurrence(text, SUFFIX, i, 0);
    }
    OccursAtSlice(text, marker, start, |prefix|, |prefix| + |key|);
    assert marker[|prefix|..|prefix| + |key|] == key;
  }

  lemma ReadKeyIsMarker(prefix: string, text: string, key: string, start: nat, end: nat)
    requires OccursAt(text, prefix, start) && OccursAt(text, SUFFIX, end)
    requires start + |prefix| <= end && text[start + |prefix|..end] == key
    ensures OccursAt(text, Marker(prefix, key), start)
  {
  }

  /** Extraction reads the first marker and nothing else. */
  lemma ExtractReadsFirstMarker(prefix: string, text: string, key: string)
    requires ']' !in prefix && ']' !in key
    ensures Extract(prefix, text) == Some(key) <==> FirstMarkerIs(prefix, text, key)
  {
    var first := Find(text, prefix, 0);
    if first.Some? {
      if FirstMarkerIs(prefix, text, key) {
        MarkerEnd(prefix, text, key, first.value);
      }
      if Extract(prefix, text) == Some(key) {
        var close := Find(text, SUFFIX, first.value);
        BracketIsPastPrefix(prefix, text, first.value, close.value);
        ReadKeyIsMarker(prefix, text, key, first.value, close.value);
      }
    }
  }

  /** Before the marker, prefixes occur in a freshly marked text where they did in the text itself. */
  lemma PrefixesBeforeMarker(prefix: string, text: string, marker: string, at: nat)
    requires IsOpening(prefix) && at < |RStrip(text)| + 2
    ensures OccursAt(RStrip(text) + "\n\n" + marker, prefix, at) <==> OccursAt(text, prefix, at)
  {
    var kept := RStrip(text);
    var marked := kept + "\n\n" + marker;
    StripKeepsOccurrence(text, prefix, at);
    if at + |prefix| <= |kept| {
      assert marked[at..at + |prefix|] == kept[at..at + |prefix|];
    } else {
      // The prefix would have to cross the line break.
      NoOccurrence(marked, prefix, at, if at < |kept| then |kept| - at else 0);
    }
  }

  /** A freshly appended marker creates no earlier copy of itself. */
  lemma NoEarlierCopy(prefix: string, text: string, key: string, at: nat)
    requires ']' !in prefix && ']' !in key && at < |RStrip(text)|
    requires !OccursAt(RStrip(text), Marker(prefix, key), at)
    ensures !OccursAt(RStrip(text) + "\n\n" + Marker(prefix, key), Marker(prefix, key), at)
  {
    var kept, marker := RStrip(text), Marker(prefix, key);
    var marked := kept + "\n\n" + marker;
    var last := at + |marker| - 1;
    if last < |kept| {
      assert marked[at..at + |marker|] == kept[at..at + |marker|];
    } else {
      // The copy would have to end inside the line break or inside the marker.
      if last >= |kept| + 2 {
        MarkerBrackets(prefix, key, last - |kept| - 2);
      }
      NoOccurrence(marked, marker, at, |marker| - 1);
    }
  }

  /** Marking keeps the first prefix where it was; without one, the marker's is the first. */
  lemma FirstPrefixOfMarked(prefix: string, text: string, marker: string)
    requires IsOpening(prefix) && prefix <= marker
    ensures Find(RStrip(text) + "\n\n" + marker, prefix, 0)
         == if Contains(text, prefix) then Find(text, prefix, 0) else Some(|RStrip(text)| + 2)
  {
    var kept := RStrip(text);
    var marked := kept + "\n\n" + marker;
    var at := if Contains(text, prefix) then Find(text, prefix, 0).value else |kept| + 2;
    forall i: nat | i < at && i < |kept| + 2
      ensures !OccursAt(marked, prefix, i)
    {
      PrefixesBeforeMarker(prefix, text, marker, i);
    }
    if Contains(text, prefix) {
      StripKeepsOccurrence(text, prefix, at);
      PrefixesBeforeMarker(prefix, text, marker, at);
    } else {
      MarkerFollows(kept, prefix, marker);
    }
    FindIs(marked, prefix, at);
  }

  lemma MarkerFollows(kept: string, prefix: string, marker: string)
    requires prefix <= marker
    ensures OccursAt(kept + "\n\n" + marker, prefix, |kept| + 2)
  {
  }

  /**
   The round trip, exactly: appending and then extracting gives the key back if and only if the
   text had no marker prefix, or its first prefix already began this key's marker.
   */
  lemma ExtractAfterAppend(prefix: string, text: string, key: string)
    requires IsOpening(prefix) && ']' !in key
    ensures Extract(prefix, Append(prefix, text, key)) == Some(key)
       <==> !Contains(text, prefix) || FirstMarkerIs(prefix, text, key)
  {
    var marker := Marker(prefix, key);
    ExtractReadsFirstMarker(prefix, Append(prefix, text, key), key);
    if Contains(text, marker) {
      MarkerStartsWithPrefix(prefix, text, key, Find(text, marker, 0).value);
    } else {
      FirstPrefixOfMarked(prefix, text, marker);
      var kept := RStrip(text);
      if Contains(text, prefix) {
        var at := Find(text, prefix, 0).value;
        StripKeepsOccurrence(text, prefix, at);
        StripKeepsOccurrence(text, marker, at);
        NoEarlierCopy(prefix, text, key, at);
      } else {
        MarkerFollows(kept, marker, marker);
      }
    }
  }

  /** Marking keeps the text, but for white space at its end, and adds nothing but the marker. */
  lemma AppendKeepsText(prefix: string, text: string, key: string)
    ensures RStrip(text) <= Append(prefix, text, key)
    ensures Contains(Append(prefix, text, key), prefix + key + "]")
    ensures Append(prefix, text, key)
         == if Contains(text, prefix + key + "]") then text else RStrip(text) + "\n\n" + (prefix + key + "]")
  {
    var marker, kept := Marker(prefix, key), RStrip(text);
    if Contains(text, marker) {
    } else {
      MarkerFollows(kept, marker, marker);
    }
  }

  /** Appending the same marker again changes nothing. */
  lemma AppendIsIdempotent(prefix: string, text: string, key: string)
    ensures Append(prefix, Append(prefix, text, key), key) == Append(prefix, text, key)
  {
    var marker, kept := Marker(prefix, key), RStrip(text);
    if !Contains(text, marker) {
      MarkerFollows(kept, marker, marker);
    }
  }
}

/** The marker that ties a CRM task to its idempotency key, and the key itself. */
module IdempotencyPolicy {
  import opened Wrappers
  import opened Strings
  import Markers

  const MARKER_PREFIX: string := "[pipeline:idempotency:"

  datatype CrmTaskRequest = CrmTaskRequest(title: string, description: string)

  function Canonical(task: CrmTaskRequest): (text: string) {
    Strip(task.title) + "\n" + Strip(task.description)
  }

  /** `sha` stands for the hexadecimal SHA-256 digest. */
  function ComputeKey(sha: string -> string, task: CrmTaskRequest): (key: string) {
    sha(Canonical(task))
  }

  /** The key is the digest of the stripped title and the stripped description, a line break between them. */
  lemma KeyIsDigestOfBoth(sha: string -> string, task: CrmTaskRequest)
    ensures ComputeKey(sha, task) == sha(Strip(task.title) + "\n" + Strip(task.description))
  {
  }

  /** What the keys rest on: no two texts share a digest, and no digest is empty or holds a closing bracket. */
  ghost predicate IsDigest(sha: string -> string) {
    && (forall a, b :: sha(a) == sha(b) ==> a == b)
    && (forall a :: sha(a) != "" && ']' !in sha(a))
  }

  function AppendMarker(text: string, key: string): (marked: string) {
    Markers.Append(MARKER_PREFIX, text, key)
  }

  function ExtractMarker(text: string): (key: Option<string>) {
    PrefixIsOpening();
    Markers.Extract(MARKER_PREFIX, text)
  }

  lemma PrefixIsOpening()
    ensures Markers.IsOpening(MARKER_PREFIX)
  {
    assert MARKER_PREFIX[|MARKER_PREFIX| - 1] == ':';
  }

  /** The texts from which a key appended to them can be read back. */
  predicate Extractable(text: string, key: string) {
    !Contains(text, MARKER_PREFIX) || Markers.FirstMarkerIs(MARKER_PREFIX, text, key)
  }

  /**
   The round trip, exactly: extracting from an appended text returns the key if and only if the text
   had no marker prefix, or its first prefix already began this key's marker.
   */
  lemma ExtractAfterAppend(text: string, key: string)
    requires ']' !in key
    ensures ExtractMarker(AppendMarker(text, key)) == Some(key) <==> Extractable(text, key)
  {
    PrefixIsOpening();
    Markers.ExtractAfterAppend(MARKER_PREFIX, text, key);
  }

  /**
   Marking keeps a task's text, but for white space at its end: unless the text already holds the key's
   marker, it is followed by a blank line and the marker, and by nothing else.
   */
  lemma AppendKeepsText(text: string, key: string)
    ensures RStrip(text) <= AppendMarker(text, key)
    ensures Contains(AppendMarker(text, key), "[pipeline:idempotency:" + key + "]")
    ensures AppendMarker(text, key)
         == if Contains(text, "[pipeline:idempotency:" + key + "]") then text
            else RStrip(text) + "\n\n" + ("[pipeline:idempotency:" + key + "]")
  {
    Markers.AppendKeepsText(MARKER_PREFIX, text, key);
  }

  /** Appending twice equals appending once. */
  lemma AppendIsIdempotent(text: string, key: string)
    ensures AppendMarker(AppendMarker(text, key), key) == AppendMarker(text, key)
  {
    Markers.AppendIsIdempotent(MARKER_PREFIX, text, key);
  }

  // ---------- Keys ----------

  /** Title and description agree but for outer white space. */
  predicate Agree(a: CrmTaskRequest, b: CrmTaskRequest) {
    Strip(a.title) == Strip(b.title) && Strip(a.description) == Strip(b.description)
  }

  /** The line break at `i` parts the text into a title and a description without outer white space. */
  predicate Splits(text: string, i: nat) {
    i < |text| && text[i] == '\n' && Trimmed(text[..i]) && Trimmed(text[i + 1..])
  }

  lemma PartsOf(title: string, description: string)
    ensures var text := title + "\n" + description;
            text[|title|] == '\n' && text[..|title|] == title && text[|title| + 1..] == description
  {
  }

  lemma CanonicalSplits(task: CrmTaskRequest)
    ensures Splits(Canonical(task), |Strip(task.title)|)
    ensures Canonical(task)[..|Strip(task.title)|] == Strip(task.title)
    ensures Canonical(task)[|Strip(task.title)| + 1..] == Strip(task.description)
  {
    StripTrims(task.title);
    StripTrims(task.description);
    PartsOf(Strip(task.title), Strip(task.description));
  }

  /** Two tasks of one text that do not agree part it at different line breaks. */
  lemma OtherSplit(a: CrmTaskRequest, b: CrmTaskRequest)
    ensures Canonical(a) == Canonical(b) && !Agree(a, b) ==>
      Splits(Canonical(a), |Strip(b.title)|) && |Strip(b.title)| != |Strip(a.title)|
  {
    CanonicalSplits(a);
    CanonicalSplits(b);
  }

  lemma CanonicalOfTrimmed(title: string, description: string)
    requires Trimmed(title) && Trimmed(description)
    ensures Canonical(CrmTaskRequest(title, description)) == title + "\n" + description
    ensures Strip(title) == title && Strip(description) == description
  {
    TrimmedStays(title);
    TrimmedStays(description);
  }

  lemma PartsAt(text: string, i: nat) returns (title: string, description: string)
    requires Splits(text, i)
    ensures text == title + "\n" + description && |title| == i && Trimmed(title) && Trimmed(description)
  {
    title, description := text[..i], text[i + 1..];
  }

  lemma SplitCollides(a: CrmTaskRequest, i: nat) returns (b: CrmTaskRequest)
    ensures Splits(Canonical(a), i) && i != |Strip(a.title)| ==> Canonical(b) == Canonical(a) && !Agree(a, b)
  {
    b := a;
    if Splits(Canonical(a), i) && i != |Strip(a.title)| {
      var title, description := PartsAt(Canonical(a), i);
      b := CrmTaskRequest(title, description);
      CanonicalOfTrimmed(title, description);
    }
  }

  /**
   A task shares its key with another one exactly when a second line break parts its canonical text
   into a title and a description.
   */
  lemma CollidesExactlyIfSplitTwice(sha: string -> string, a: CrmTaskRequest)
    requires IsDigest(sha)
    ensures (exists b :: ComputeKey(sha, a) == ComputeKey(sha, b) && !Agree(a, b))
       <==> exists i: nat :: Splits(Canonical(a), i) && i != |Strip(a.title)|
  {
    if b :| ComputeKey(sha, a) == ComputeKey(sha, b) && !Agree(a, b) {
      OtherSplit(a, b);
    }
    if i: nat :| Splits(Canonical(a), i) && i != |Strip(a.title)| {
      var b := SplitCollides(a, i);
      assert ComputeKey(sha, a) == ComputeKey(sha, b);
    }
  }

  /** Tasks whose titles are one line share a key exactly when title and description agree but for outer white space. */
  lemma KeyIdentifiesTask(sha: string -> string, a: CrmTaskRequest, b: CrmTaskRequest)
    requires IsDigest(sha)
    ensures OneLine(a) && OneLine(b) ==> (ComputeKey(sha, a) == ComputeKey(sha, b) <==> Agree(a, b))
  {
    if OneLine(a) && OneLine(b) && Canonical(a) == Canonical(b) {
      CanonicalSplits(a);
      CanonicalSplits(b);
      FirstBreakIsOne(Canonical(a), |Strip(a.title)|, |Strip(b.title)|);
    }
  }

  lemma BreakBefore(text: string, i: nat, j: nat)
    requires i < j <= |text| && text[i] == '\n'
    ensures '\n' in text[..j]
  {
    assert text[..j][i] == '\n';
  }

  /** Of two line breaks the earlier one lies in the front that the later one parts off. */
  lemma FirstBreakIsOne(text: string, i: nat, j: nat)
    requires i < |text| && text[i] == '\n' && '\n' !in text[..i]
    requires j < |text| && text[j] == '\n' && '\n' !in text[..j]
    ensures i == j
  {
    if i < j {
      BreakBefore(text, i, j);
    } else if j < i {
      BreakBefore(text, j, i);
    }
  }

  /** The title is one line but for outer white space. */
  predicate OneLine(task: CrmTaskRequest) {
    '\n' !in Strip(task.title)
  }

  /** Such a pair: of two line breaks in one text, the title ends at the first or at the second. */
  lemma MultiLineTitlesCollide(sha: string -> string)
    ensures var a, b := CrmTaskRequest("a", "b\nc"), CrmTaskRequest("a\nb", "c");
            a != b && ComputeKey(sha, a) == ComputeKey(sha, b)
  {
    TrimmedStays("a"); TrimmedStays("b\nc"); TrimmedStays("a\nb"); TrimmedStays("c");
    assert "a" + "\n" + "b\nc" == "a\nb" + "\n" + "c";
  }
}
