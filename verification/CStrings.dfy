/** Strings in memory: they end at the first NUL. */
module CStrings {

  const NUL: char := '\0'

  /** The C string at the start of the memory. */
  function CString(m: string): string {
    if m == [] || m[0] == NUL then [] else [m[0]] + CString(m[1..])
  }

  /** A NUL with none before it is where the string ends. */
  lemma {:induction false} CStringIs(m: string, n: nat)
    requires n < |m| && m[n] == NUL && NUL !in m[..n]
    ensures CString(m) == m[..n]
  {
    if n == 0 {
    } else {
      assert m[0] == m[..n][0];
      assert m[1..][..n - 1] == m[..n][1..];
      CStringIs(m[1..], n - 1);
      assert m[..n] == [m[0]] + m[1..][..n - 1];
    }
  }

  /** A text in memory is read back, whatever stands behind its NUL. */
  lemma {:induction false} CStringOfText(text: string, pad: string)
    requires '\0' !in text && (pad == [] || pad[0] == '\0')
    ensures CString(text + pad) == text
  {
    if text == [] {
      assert text + pad == pad;
    } else {
      assert (text + pad)[1..] == text[1..] + pad;
      CStringOfText(text[1..], pad);
    }
  }

  /** Writing a NUL cuts the string there. */
  lemma {:induction false} CStringCut(m: string, n: nat)
    requires n < |m|
    ensures CString(m[n := NUL]) == CString(m[..n])
    decreases n
  {
    if n == 0 {
    } else {
      assert m[n := NUL][1..] == m[1..][n - 1 := NUL];
      assert m[..n][1..] == m[1..][..n - 1];
      CStringCut(m[1..], n - 1);
    }
  }

  /** Writing the first k characters of a text over a string, and nothing behind them. */
  lemma {:induction false} CStringOfOverlay(text: string, k: nat, before: string)
    requires k <= |text| && NUL !in text && k <= |before|
    ensures CString(text[..k] + before[k..]) == text[..k] + CString(before[k..])
    decreases k
  {
    var m := text[..k] + before[k..];
    if k == 0 {
      assert m == before[k..];
    } else {
      CStringOfOverlay(text[1..], k - 1, before[1..]);
      assert m[1..] == text[1..][..k - 1] + before[1..][k - 1..];
      assert before[1..][k - 1..] == before[k..];
      assert text[..k] == [text[0]] + text[1..][..k - 1];
    }
  }

  /** What stands after k characters of a string is the rest of it. */
  lemma {:induction false} CStringTail(m: string, k: nat)
    requires k <= |CString(m)|
    ensures k <= |m| && CString(m[k..]) == CString(m)[k..]
    decreases k
  {
    if k == 0 {
      assert m[0..] == m;
    } else {
      CStringTail(m[1..], k - 1);
      assert m[1..][k - 1..] == m[k..];
      assert CString(m)[k..] == CString(m[1..])[k - 1..];
    }
  }
}
