/**
 * Padding, repetition and framing of text cells, as the report client's
 * f-strings and joins produce them.
 */
module TextLayout {
  import opened PyText

  function Max(a: nat, b: nat): nat {
    if a >= b then a else b
  }

  function Repeat(c: char, n: nat): (r: string)
    ensures |r| == n && forall k :: 0 <= k < n ==> r[k] == c
  {
    seq(n, _ => c)
  }

  /** f"{s:<{w}}": s padded with spaces on the right to width w. */
  function LJust(s: string, w: nat): (r: string)
    ensures |r| == Max(|s|, w)
  {
    if |s| >= w then s else s + Repeat(' ', w - |s|)
  }

  /** Left-justifying keeps the text at the start and pads with spaces only. */
  lemma LJustKeepsText(s: string, w: nat)
    ensures var r := LJust(s, w);
            r[..|s|] == s && forall k :: |s| <= k < |r| ==> r[k] == ' '
  {
  }

  /** f"{s:>{w}}": s padded with spaces on the left to width w. */
  function RJust(s: string, w: nat): (r: string)
    ensures |r| == Max(|s|, w)
  {
    if |s| >= w then s else Repeat(' ', w - |s|) + s
  }

  /** Right-justifying keeps the text at the end and pads with spaces only. */
  lemma RJustKeepsText(s: string, w: nat)
    ensures var r := RJust(s, w);
            r[|r| - |s|..] == s && forall k :: 0 <= k < |r| - |s| ==> r[k] == ' '
  {
  }

  /** "\n".join(lines). */
  function JoinLines(lines: seq<string>): string {
    if lines == [] then "" else Join(lines, '\n')
  }

  function SumLengths(parts: seq<string>): nat {
    if parts == [] then 0 else |parts[0]| + SumLengths(parts[1..])
  }

  function Sum(w: seq<nat>): nat {
    if w == [] then 0 else w[0] + Sum(w[1..])
  }

  lemma {:induction false} JoinLength(parts: seq<string>, c: char)
    requires |parts| >= 1
    ensures |Join(parts, c)| == SumLengths(parts) + |parts| - 1
  {
    if |parts| > 1 {
      JoinLength(parts[1..], c);
    }
  }

  /** Cells between delimiters, with a delimiter at each end. */
  function Framed(cells: seq<string>, c: char): string
    requires |cells| >= 1
  {
    [c] + Join(cells, c) + [c]
  }

  lemma FramedLength(cells: seq<string>, c: char)
    requires |cells| >= 1
    ensures |Framed(cells, c)| == SumLengths(cells) + |cells| + 1
  {
    JoinLength(cells, c);
  }

  lemma {:induction false} SumLengthsOfWidths(cells: seq<string>, w: seq<nat>)
    requires |cells| == |w| && forall k :: 0 <= k < |w| ==> |cells[k]| == w[k] + 2
    ensures SumLengths(cells) == Sum(w) + 2 * |w|
  {
    if w != [] {
      SumLengthsOfWidths(cells[1..], w[1..]);
    }
  }

  /** Cells padded to their column widths frame into a line of a length fixed by the widths. */
  lemma FramedWidth(cells: seq<string>, w: seq<nat>, c: char)
    requires |cells| == |w| >= 1 && forall k :: 0 <= k < |w| ==> |cells[k]| == w[k] + 2
    ensures |Framed(cells, c)| == Sum(w) + 2 * |w| + |w| + 1
  {
    FramedLength(cells, c);
    SumLengthsOfWidths(cells, w);
  }
}
