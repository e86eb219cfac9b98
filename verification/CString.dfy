/** C strings in arrays. */
module CString {
  /** strlen */
  method StrLen(s: array<char>) returns (n: nat)
    requires '\0' in s[..]
    ensures n < s.Length && s[n] == '\0' && '\0' !in s[..n]
  {
    n := 0;
    while s[n] != '\0'
      invariant n < s.Length && '\0' !in s[..n]
      decreases s.Length - n
    {
      n := n + 1;
    }
  }

  lemma Terminator(s: string, text: string, n: nat)
    requires |text| < |s| && s[..|text|] == text && s[|text|] == '\0' && '\0' !in text
    requires n < |s| && s[n] == '\0' && '\0' !in s[..n]
    ensures n == |text|
  {
    assert forall i :: 0 <= i < |text| ==> text[i] == s[i];
    assert forall i :: 0 <= i < n ==> s[..n][i] == s[i];
  }

  /** memcpy(out + o, text, strlen(text)) */
  method PutText(out: array<char>, o: nat, text: string)
    requires o + |text| <= out.Length
    modifies out
    ensures out[..o + |text|] == old(out[..o]) + text
  {
    var k: nat := 0;
    while k < |text|
      invariant k <= |text| && out[..o + k] == old(out[..o]) + text[..k]
    {
      out[o + k] := text[k];
      assert out[..o + k + 1] == out[..o + k] + [text[k]];
      assert text[..k + 1] == text[..k] + [text[k]];
      k := k + 1;
    }
  }

  /** snprintf(out + o, size, "%s", text) where size is the room left; the result is the length of the
      text, and it was cut if that is not below size. */
  method Snprintf(out: array<char>, o: nat, text: string) returns (n: nat)
    requires o <= out.Length
    modifies out
    ensures n == |text| && out[..o] == old(out[..o])
    ensures o + n < out.Length ==> out[..o + n] == old(out[..o]) + text && out[o + n] == '\0'
  {
    n := |text|;
    if o == out.Length {
      return;
    }
    var k := if o + n < out.Length then n else out.Length - 1 - o;
    PutText(out, o, text[..k]);
    assert out[..o] == out[..o + k][..o];
    out[o + k] := '\0';
    assert text[..n] == text;
  }
}
