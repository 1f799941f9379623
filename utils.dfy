/** Turning a byte offset in a file into the 1-based line and column reported to
    the user. */
module Utils {

  /** The number of newlines in `t`. */
  function Newlines(t: string): (n: nat)
    ensures n <= |t|
  {
    if t == [] then 0
    else Newlines(t[..|t| - 1]) + (if t[|t| - 1] == '\n' then 1 else 0)
  }

  /** The index of the last newline in `t`, or -1 when there is none. */
  function LastNewline(t: string): (r: int)
    ensures -1 <= r < |t|
    ensures r >= 0 ==> t[r] == '\n'
    ensures forall m :: r < m < |t| ==> t[m] != '\n'
  {
    if t == [] then -1
    else if t[|t| - 1] == '\n' then |t| - 1
    else LastNewline(t[..|t| - 1])
  }

  /** An offset past the end of the content counts as the end. */
  function Clamp(content: string, offset: nat): (o: nat)
    ensures o <= |content|
    ensures o == offset || (offset > |content| && o == |content|)
  {
    if offset > |content| then |content| else offset
  }

  /** The line and column of `offset`: one more than the newlines before it, and
      its distance from the last of those newlines (from the start of the content
      when there is none). */
  function LineCol(content: string, offset: nat): (r: (int, int))
    ensures r.0 >= 1 && r.1 >= 1
  {
    var o := Clamp(content, offset);
    var prefix := content[..o];
    (1 + Newlines(prefix), o - LastNewline(prefix))
  }

  /** `OffsetToLineCol`: count the newlines up to the clamped offset, remembering
      where the last one was. A negative offset makes Go's slice expression panic,
      so callers must not pass one. */
  method OffsetToLineCol(content: string, offset: int) returns (line: int, col: int)
    requires offset >= 0
    ensures (line, col) == LineCol(content, offset)
  {
    line := 1;
    var lastNewline := -1;
    var o := offset;
    if o > |content| {
      o := |content|;
    }
    var idx := 0;
    while idx < o
      invariant 0 <= idx <= o
      invariant line == 1 + Newlines(content[..idx])
      invariant lastNewline == LastNewline(content[..idx])
    {
      assert content[..idx + 1][..idx] == content[..idx];
      if content[idx] == '\n' {
        line := line + 1;
        lastNewline := idx;
      }
      idx := idx + 1;
    }
    col := o - lastNewline;
  }

  /** The start of the content is line 1, column 1. */
  lemma LineColStart(content: string)
    ensures LineCol(content, 0) == (1, 1)
  {
  }

  /** Moving one byte forward: past a newline goes to column 1 of the next line,
      past any other byte to the next column of the same line. Together with the
      start this determines every position. */
  lemma LineColStep(content: string, offset: nat)
    requires offset < |content|
    ensures var (line, col) := LineCol(content, offset);
            LineCol(content, offset + 1) ==
              if content[offset] == '\n' then (line + 1, 1) else (line, col + 1)
  {
    assert content[..offset + 1][..offset] == content[..offset];
  }

  /** An offset past the end reports the position of the end. */
  lemma LineColClamped(content: string, offset: nat)
    requires offset >= |content|
    ensures LineCol(content, offset) == LineCol(content, |content|)
  {
  }

  /** Later offsets never report an earlier line. */
  lemma {:induction false} LineMonotone(content: string, a: nat, b: nat)
    requires a <= b
    ensures LineCol(content, a).0 <= LineCol(content, b).0
    decreases b - a
  {
    if a < b && a < |content| {
      LineColStep(content, a);
      LineMonotone(content, a + 1, b);
    } else if a < b {
      LineColClamped(content, a);
      LineColClamped(content, b);
    }
  }

  /** The column counts the bytes since the line began: the `col - 1` bytes
      before the offset hold no newline, and the byte before them, if any, is one. */
  lemma ColumnIsLineOffset(content: string, offset: nat)
    requires offset <= |content|
    ensures var col := LineCol(content, offset).1;
            1 <= col <= offset + 1
            && (forall m :: offset - col < m < offset ==> content[m] != '\n')
            && (col <= offset ==> content[offset - col] == '\n')
  {
    var prefix := content[..offset];
    var last := LastNewline(prefix);
    assert forall m :: last < m < offset ==> content[m] == prefix[m];
  }
}
