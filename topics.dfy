/** The per-node topic naming shared by the publisher and the provisioner:
    "tasks.node." followed by the trimmed node id in which every character
    outside [A-Za-z0-9._-] is replaced by '_'. */
module Topics {
  import opened Strings

  const TopicPrefix: string := "tasks.node."

  /** The characters the regular expression [a-zA-Z0-9._-] accepts. */
  predicate IsSafeChar(c: char) {
    ('a' <= c <= 'z') || ('A' <= c <= 'Z') || ('0' <= c <= '9') || c == '.' || c == '_' || c == '-'
  }

  predicate AllSafe(s: string) {
    forall i :: 0 <= i < |s| ==> IsSafeChar(s[i])
  }

  /** replaceAll("[^a-zA-Z0-9._-]", "_"). */
  function Sanitize(s: string): (r: string)
    ensures |r| == |s|
    ensures forall i :: 0 <= i < |s| ==> r[i] == if IsSafeChar(s[i]) then s[i] else '_'
  {
    if s == [] then []
    else [if IsSafeChar(s[0]) then s[0] else '_'] + Sanitize(s[1..])
  }

  /** Every character of a sanitised string is safe. */
  lemma SanitizeIsSafe(s: string)
    ensures AllSafe(Sanitize(s))
  {
  }

  /** A string of safe characters passes through unchanged. */
  lemma SanitizeKeepsSafe(s: string)
    requires AllSafe(s)
    ensures Sanitize(s) == s
  {
  }

  /** Sanitising is idempotent. */
  lemma SanitizeIdempotent(s: string)
    ensures Sanitize(Sanitize(s)) == Sanitize(s)
  {
    SanitizeIsSafe(s);
    SanitizeKeepsSafe(Sanitize(s));
  }

  /** Safe characters are never whitespace. */
  lemma SafeHasNoSpace(s: string)
    requires AllSafe(s)
    ensures NoSpace(s)
  {
  }

  /** A string of the form ^tasks\.node\.[A-Za-z0-9._-]+$. */
  predicate IsTopicName(t: string) {
    |t| > |TopicPrefix| && StartsWith(t, TopicPrefix) && AllSafe(t[|TopicPrefix|..])
  }

  /** The part of a topic name after the prefix. */
  function Suffix(t: string): string
    requires |t| >= |TopicPrefix|
  {
    t[|TopicPrefix|..]
  }

  /** The name both components derive from a node id. */
  function DerivedName(nodeId: string): string {
    TopicPrefix + Sanitize(Trim(nodeId))
  }

  /** A non-blank id derives a well-formed topic name whose suffix is as long
      as the trimmed id. */
  lemma DerivedNameShape(nodeId: string)
    requires !IsBlank(nodeId)
    ensures IsTopicName(DerivedName(nodeId))
    ensures |Suffix(DerivedName(nodeId))| == |Trim(nodeId)|
  {
    TrimEmptyIffBlank(nodeId);
    SanitizeIsSafe(Trim(nodeId));
    assert Suffix(DerivedName(nodeId)) == Sanitize(Trim(nodeId));
  }

  /** The suffix of a derived name derives the same name again: deriving
      twice is the same as deriving once. */
  lemma DerivedNameIdempotent(nodeId: string)
    requires !IsBlank(nodeId)
    ensures var sfx := Suffix(DerivedName(nodeId)); !IsBlank(sfx) && DerivedName(sfx) == DerivedName(nodeId)
  {
    var t := DerivedName(nodeId);
    DerivedNameShape(nodeId);
    var sfx := Suffix(t);
    assert sfx == Sanitize(Trim(nodeId));
    SafeHasNoSpace(sfx);
    assert !IsSpace(sfx[0]);
    TrimNoSpace(sfx);
    SanitizeIdempotent(Trim(nodeId));
  }

  /** A non-empty id made of safe characters is used verbatim. */
  lemma DerivedNameOfSafeId(nodeId: string)
    requires nodeId != [] && AllSafe(nodeId)
    ensures !IsBlank(nodeId) && DerivedName(nodeId) == TopicPrefix + nodeId
  {
    SafeHasNoSpace(nodeId);
    assert !IsSpace(nodeId[0]);
    TrimNoSpace(nodeId);
    SanitizeKeepsSafe(nodeId);
  }

  /** The worker subscribes to "tasks.node." + its configured id without
      trimming or sanitising (worker KafkaConsumerConfig). For any non-blank
      id holding a character outside [A-Za-z0-9._-] (a surrounding space
      such as in " n1" included) the two names differ. */
  lemma WorkerTopicDiffersForUntrimmedId(id: string)
    requires !IsBlank(id) && !AllSafe(id)
    ensures DerivedName(id) != TopicPrefix + id
  {
    DerivedNameShape(id);
    var i :| 0 <= i < |id| && !IsSafeChar(id[i]);
    assert (TopicPrefix + id)[|TopicPrefix| + i] == id[i];
  }
}
