/**
 Normalisation of names received from the server. The two library routines it calls are
 parameters: `strings.TrimSpace`, and the test for control characters.
 */
module Text {
  import opened Common

  datatype Library = Library(trim: string -> string, hasControl: string -> bool) {
    /** What is used of them: a NUL byte is a control character and never trimmed away. */
    ghost predicate Valid() {
      && (forall s :: !NulFree(s) ==> !NulFree(trim(s)))
      && (forall s :: !NulFree(s) ==> hasControl(s))
    }

    /** `normalizeDimension`: the trimmed text, or empty when it is unusable. */
    function Normalize(value: string, limit: nat): string {
      var trimmed := trim(value);
      if trimmed == "" || |trimmed| > limit || hasControl(trimmed) then "" else trimmed
    }
  }

  /** Accepted text carries no NUL byte, neither before nor after trimming. */
  lemma NormalizedIsNulFree(lib: Library, value: string, limit: nat)
    requires lib.Valid()
    ensures NulFree(lib.Normalize(value, limit))
    ensures lib.Normalize(value, limit) != "" ==> NulFree(value)
  {
    assert !NulFree(value) ==> !NulFree(lib.trim(value)) && lib.hasControl(lib.trim(value));
    assert !NulFree(lib.trim(value)) ==> lib.hasControl(lib.trim(value));
  }

  /** A key whose two parts are free of NUL bytes is the key of that pair only, whatever the
      other pair contains. */
  lemma KeyNamesPair(a: string, b: string, c: string, d: string)
    requires NulFree(a) && NulFree(b)
    ensures Key(a, b) == Key(c, d) <==> a == c && b == d
  {
    if Key(a, b) == Key(c, d) {
      FirstNul(a, b);
      assert Key(c, d)[|c|] == NUL;
      assert forall i :: |a| < i < |Key(a, b)| ==> Key(a, b)[i] == b[i - |a| - 1];
      assert |a| == |c|;
      assert Key(c, d)[..|c|] == c && Key(c, d)[|c| + 1..] == d;
    }
  }
}
