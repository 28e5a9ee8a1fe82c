/** Transcript_saver_R000.py, `sanitize_filename`: the video title made safe as a Windows
    file name by deleting the characters such names cannot hold. */
module TranscriptSaver {
  import opened PyStr

  /** Not one of the nine characters backslash, slash, `*`, `?`, `:`, `"`, `<`, `>` and `|`
      that the substituted character class lists. */
  predicate Allowed(c: char) {
    !(c == '\\' || c == '/' || c == '*' || c == '?' || c == ':' || c == '"' || c == '<' || c == '>' || c == '|')
  }

  /** The substitution of the empty string for every character of that class: no forbidden
      character is left, and nothing is added. */
  function SanitizeFilename(name: string): (r: string)
    ensures forall i :: 0 <= i < |r| ==> Allowed(r[i])
    ensures |r| <= |name|
  {
    Filter(name, Allowed)
  }

  /** The substitution works character by character, left to right: it distributes over
      concatenation, keeps an allowed character and deletes a forbidden one. These two facts
      determine it completely. */
  lemma SanitizeFilenameCharacterwise(a: string, b: string, c: char)
    ensures SanitizeFilename(a + b) == SanitizeFilename(a) + SanitizeFilename(b)
    ensures SanitizeFilename([c]) == if Allowed(c) then [c] else []
  {
    FilterAppend(a, b, Allowed);
  }

  /** Every allowed character occurs as often in the result as in the input. */
  lemma SanitizeFilenameCounts(name: string, c: char)
    ensures multiset(SanitizeFilename(name))[c] == if Allowed(c) then multiset(name)[c] else 0
  {
    if Allowed(c) {
      FilterCount(name, Allowed, c);
    } else {
      var r := SanitizeFilename(name);
      assert c !in multiset(r);
    }
  }

  /** Sanitising twice is sanitising once. */
  lemma SanitizeFilenameIdempotent(name: string)
    ensures SanitizeFilename(SanitizeFilename(name)) == SanitizeFilename(name)
  {
    FilterCompose(name, Allowed, Allowed);
  }

  /** The name keeps its length exactly when it has no forbidden character, and then it is
      returned unchanged. */
  lemma SanitizeFilenameLength(name: string)
    ensures |SanitizeFilename(name)| == |name| <==> forall i :: 0 <= i < |name| ==> Allowed(name[i])
    ensures (forall i :: 0 <= i < |name| ==> Allowed(name[i])) ==> SanitizeFilename(name) == name
  {
    FilterShortens(name, Allowed);
    if forall i :: 0 <= i < |name| ==> Allowed(name[i]) {
      FilterKeepsAll(name, Allowed);
    }
  }
}
