/** What the line editor means: a list of codepoints and a place in it. */
module Editor {
  import opened Utf8

  datatype Editor = Editor(text: seq<seq<bv8>>, at: nat)

  ghost predicate Sound(e: Editor) {
    e.at <= |e.text| && AllFormed(e.text)
  }

  // The codepoints before and at the cursor.
  ghost function Before(e: Editor): seq<bv8>
    requires 0 < e.at <= |e.text|
  {
    e.text[e.at - 1]
  }

  ghost function Under(e: Editor): seq<bv8>
    requires e.at < |e.text|
  {
    e.text[e.at]
  }

  ghost function Insert(e: Editor, c: seq<bv8>): Editor
    requires Sound(e)
  {
    Editor(e.text[..e.at] + [c] + e.text[e.at..], e.at + 1)
  }

  ghost function Backspace(e: Editor): Editor
    requires Sound(e)
  {
    if e.at == 0 then e else Editor(e.text[..e.at - 1] + e.text[e.at..], e.at - 1)
  }

  ghost function Delete(e: Editor): Editor
    requires Sound(e)
  {
    if e.at == |e.text| then e else Editor(e.text[..e.at] + e.text[e.at + 1..], e.at)
  }

  ghost function Left(e: Editor): Editor { if e.at == 0 then e else e.(at := e.at - 1) }
  ghost function Right(e: Editor): Editor { if e.at >= |e.text| then e else e.(at := e.at + 1) }
  ghost function Home(e: Editor): Editor { e.(at := 0) }
  ghost function End(e: Editor): Editor { e.(at := |e.text|) }

  predicate IsSpace(c: seq<bv8>) { c == [0x20] }
  predicate Stops(c: seq<bv8>) { c == [0x20] || c == [0] }

  // The first place from k on that holds no space.
  ghost function PastSpaces(text: seq<seq<bv8>>, k: nat): (r: nat)
    requires k <= |text|
    ensures k <= r <= |text|
    ensures forall i :: k <= i < r ==> IsSpace(text[i])
    ensures r < |text| ==> !IsSpace(text[r])
    decreases |text| - k
  {
    if k < |text| && IsSpace(text[k]) then PastSpaces(text, k + 1) else k
  }

  // The first place from k on where a word ends.
  ghost function PastWord(text: seq<seq<bv8>>, k: nat): (r: nat)
    requires k <= |text|
    ensures k <= r <= |text|
    ensures forall i :: k <= i < r ==> !Stops(text[i])
    ensures r < |text| ==> Stops(text[r])
    decreases |text| - k
  {
    if k < |text| && !Stops(text[k]) then PastWord(text, k + 1) else k
  }

  ghost function WordEnd(e: Editor): Editor
    requires Sound(e)
  {
    e.(at := PastWord(e.text, PastSpaces(e.text, e.at)))
  }

  // The first place before k that only spaces separate from it.
  ghost function BackOverSpaces(text: seq<seq<bv8>>, k: nat): (r: nat)
    requires k <= |text|
    ensures r <= k
    ensures forall i :: r <= i < k ==> IsSpace(text[i])
    ensures r > 0 ==> !IsSpace(text[r - 1])
  {
    if k > 0 && IsSpace(text[k - 1]) then BackOverSpaces(text, k - 1) else k
  }

  // The place before k where its word starts.
  ghost function BackOverWord(text: seq<seq<bv8>>, k: nat): (r: nat)
    requires k <= |text|
    ensures r <= k
    ensures forall i :: r <= i < k ==> !IsSpace(text[i])
    ensures r > 0 ==> IsSpace(text[r - 1])
  {
    if k > 0 && !IsSpace(text[k - 1]) then BackOverWord(text, k - 1) else k
  }

  ghost function WordStart(e: Editor): Editor
    requires Sound(e)
  {
    e.(at := BackOverWord(e.text, BackOverSpaces(e.text, e.at)))
  }

  // Behind every space before the cursor there are only spaces, up to the cursor.
  ghost predicate InFirstWord(e: Editor)
    requires e.at <= |e.text|
  {
    forall i, j :: 0 <= i < j < e.at && IsSpace(e.text[i]) ==> IsSpace(e.text[j])
  }

  /** A jump back reaches the start of the line if and only if it begins in the first word, or in the spaces
      behind it, and the line does not begin with a space that a word follows. */
  lemma JumpReachesStart(e: Editor)
    requires Sound(e)
    ensures WordStart(e).at == 0 <==> InFirstWord(e)
  {
    hide AllFormed;
    var k := BackOverSpaces(e.text, e.at);
    var r := BackOverWord(e.text, k);
    if r > 0 {
      assert IsSpace(e.text[r - 1]) && !IsSpace(e.text[k - 1]);
    } else {
      assert forall j :: 0 <= j < k ==> !IsSpace(e.text[j]);
      assert forall j :: k <= j < e.at ==> IsSpace(e.text[j]);
    }
  }

  /** So it does on an empty line, and on a line of one word. */
  lemma FirstWordExamples()
    ensures InFirstWord(Editor([], 0)) && WordStart(Editor([], 0)) == Editor([], 0)
    ensures InFirstWord(Editor([[0x68], [0x69]], 2)) && !InFirstWord(Editor([[0x68], [0x20], [0x69]], 3))
  {
    assert IsSpace([0x20]) && !IsSpace([0x69]);
    var e := Editor([[0x68], [0x20], [0x69]], 3);
    assert IsSpace(e.text[1]) && !IsSpace(e.text[2]);
  }

  /** Every edit and move keeps the list sound. */
  lemma SoundKept(e: Editor, c: seq<bv8>)
    requires Sound(e) && WellFormed(c)
    ensures Sound(Insert(e, c)) && Sound(Backspace(e)) && Sound(Delete(e)) && Sound(Left(e)) && Sound(Right(e))
            && Sound(Home(e)) && Sound(End(e)) && Sound(WordEnd(e)) && Sound(WordStart(e))
  {
    hide WellFormed;
  }

  /** What was inserted is taken back by backspace, or by a step left and a delete. */
  lemma InsertUndone(e: Editor, c: seq<bv8>)
    requires Sound(e) && WellFormed(c)
    ensures Sound(Insert(e, c)) && Backspace(Insert(e, c)) == e
    ensures Sound(Left(Insert(e, c))) && Delete(Left(Insert(e, c))) == e
  {
    hide WellFormed, AllFormed;
    InsertSound(e, c);
    TakenOut(e.text, e.at, c);
  }

  lemma InsertSound(e: Editor, c: seq<bv8>)
    requires Sound(e) && WellFormed(c)
    ensures Sound(Insert(e, c))
  {
    hide WellFormed;
    SoundKept(e, c);
  }

  lemma TakenOut<T>(s: seq<T>, k: nat, x: T)
    requires k <= |s|
    ensures var t := s[..k] + [x] + s[k..]; t[..k] + t[k + 1..] == s
  {
    var t := s[..k] + [x] + s[k..];
    assert t[..k] == s[..k] && t[k + 1..] == s[k..];
  }

  /** What backspace takes away can be put back. */
  lemma BackspaceUndone(e: Editor)
    requires Sound(e) && e.at > 0
    ensures Sound(Backspace(e)) && Insert(Backspace(e), e.text[e.at - 1]) == e
  {
    hide WellFormed, AllFormed;
    BackspaceSound(e);
    PutBack(e.text, e.at);
  }

  lemma BackspaceSound(e: Editor)
    requires Sound(e) && e.at > 0
    ensures Sound(Backspace(e))
  {
    hide WellFormed;
    SoundKept(e, e.text[e.at - 1]);
  }

  lemma PutBack<T>(s: seq<T>, k: nat)
    requires 0 < k <= |s|
    ensures var t := s[..k - 1] + s[k..]; t[..k - 1] + [s[k - 1]] + t[k - 1..] == s
  {
    var t := s[..k - 1] + s[k..];
    assert t[..k - 1] == s[..k - 1] && t[k - 1..] == s[k..];
  }

  // ---- How the program stores the list ----

  // The bytes of the line, the byte and the cell that the cursor is at, and the cells of the line.
  ghost predicate Stored(e: Editor, bytes: seq<bv8>, offset: nat, column: nat, lineLen: nat) {
    Sound(e) && bytes == Flat(e.text) && lineLen == Cells(e.text)
    && offset == |Flat(e.text[..e.at])| && column == Cells(e.text[..e.at])
  }

  /** The storage is within its bounds, and the cursor is at the end of the bytes exactly if it is at
      the end of the list and of the cells; likewise for the start. */
  lemma StoredBounds(e: Editor, bytes: seq<bv8>, offset: nat, column: nat, lineLen: nat)
    requires Stored(e, bytes, offset, column, lineLen)
    ensures Sound(e) && e.at <= |e.text| && offset <= |bytes| && column <= lineLen
    ensures offset == |bytes| <==> e.at == |e.text|
    ensures column == lineLen <==> e.at == |e.text|
    ensures offset == 0 <==> e.at == 0
    ensures column == 0 <==> e.at == 0
    ensures |bytes| == 0 <==> |e.text| == 0
    ensures lineLen == 0 <==> |e.text| == 0
  {
    CutAt(e.text, e.at);
    NoBytes(e.text);
    NoBytes(e.text[..e.at]);
    NoBytes(e.text[e.at..]);
    hide WellFormed, Flat, Cells;
  }

  // The codepoint at the cursor, and what moving past it changes.
  lemma StoredRight(e: Editor, bytes: seq<bv8>, offset: nat, column: nat, lineLen: nat)
    requires Stored(e, bytes, offset, column, lineLen) && e.at < |e.text|
    ensures var c := Under(e);
            WellFormed(c) && offset + |c| <= |bytes| && bytes[offset..offset + |c|] == c
            && Stored(Right(e), bytes, offset + |c|, column + Width(c), lineLen)
  {
    hide WellFormed, Flat, Cells, Width;
    CutAround(e.text, e.at);
  }

  lemma StoredLeft(e: Editor, bytes: seq<bv8>, offset: nat, column: nat, lineLen: nat)
    requires Stored(e, bytes, offset, column, lineLen) && e.at > 0
    ensures var c := Before(e);
            WellFormed(c) && |c| <= offset <= |bytes| && bytes[offset - |c|..offset] == c && Width(c) <= column
            && Stored(Left(e), bytes, offset - |c|, column - Width(c), lineLen)
  {
    hide WellFormed, Flat, Cells, Width;
    CutAround(e.text, e.at - 1);
    CutAt(e.text, e.at);
  }

  lemma StoredEnds(e: Editor, bytes: seq<bv8>, offset: nat, column: nat, lineLen: nat)
    requires Stored(e, bytes, offset, column, lineLen)
    ensures Stored(Home(e), bytes, 0, 0, lineLen) && Stored(End(e), bytes, |bytes|, lineLen, lineLen)
  {
    hide WellFormed, Width;
    assert e.text[..0] == [] && e.text[..|e.text|] == e.text;
  }

  lemma StoredInsert(e: Editor, bytes: seq<bv8>, offset: nat, column: nat, lineLen: nat, c: seq<bv8>)
    requires Stored(e, bytes, offset, column, lineLen) && WellFormed(c)
    ensures offset <= |bytes|
    ensures Stored(Insert(e, c), bytes[..offset] + c + bytes[offset..], offset + |c|, column + Width(c), lineLen + Width(c))
  {
    hide WellFormed, Flat, Cells, Width;
    SoundKept(e, c);
    CutAt(e.text, e.at);
    var i := Insert(e, c);
    CutAround(i.text, e.at);
    assert i.text[..e.at] == e.text[..e.at] && i.text[e.at + 1..] == e.text[e.at..] && i.text[e.at] == c;
  }

  lemma StoredBackspace(e: Editor, bytes: seq<bv8>, offset: nat, column: nat, lineLen: nat)
    requires Stored(e, bytes, offset, column, lineLen) && e.at > 0
    ensures var c := Before(e);
            |c| <= offset <= |bytes| && Width(c) <= column && Width(c) <= lineLen
            && Stored(Backspace(e), bytes[..offset - |c|] + bytes[offset..], offset - |c|, column - Width(c), lineLen - Width(c))
  {
    hide WellFormed, Flat, Cells, Width;
    var k, c := e.at - 1, e.text[e.at - 1];
    SoundKept(e, c);
    CutAround(e.text, k);
    var b := Backspace(e);
    CutAt(b.text, k);
    assert b.text[..k] == e.text[..k] && b.text[k..] == e.text[k + 1..];
  }

  lemma StoredDelete(e: Editor, bytes: seq<bv8>, offset: nat, column: nat, lineLen: nat)
    requires Stored(e, bytes, offset, column, lineLen) && e.at < |e.text|
    ensures var c := Under(e);
            offset + |c| <= |bytes| && Width(c) <= lineLen
            && Stored(Delete(e), bytes[..offset] + bytes[offset + |c|..], offset, column, lineLen - Width(c))
  {
    hide WellFormed, Flat, Cells, Width;
    var k, c := e.at, e.text[e.at];
    SoundKept(e, c);
    CutAround(e.text, k);
    var d := Delete(e);
    CutAt(d.text, k);
    assert d.text[..k] == e.text[..k] && d.text[k..] == e.text[k + 1..];
  }
}
