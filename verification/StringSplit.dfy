/** The string splitters: position-updating loops over std::string::find. */
module StringSplit {

  /** `sep` stands at position `at` of `s`. */
  predicate Occurs(s: string, sep: string, at: nat) { at + |sep| <= |s| && s[at..at + |sep|] == sep }

  predicate Contains(s: string, sep: string) { exists at :: 0 <= at <= |s| && Occurs(s, sep, at) }

  /** std::string::find: the first occurrence at or after `start`, or |s| + 1 for npos. */
  method Find(s: string, sep: string, start: nat) returns (pos: nat)
    requires sep != [] && start <= |s|
    ensures pos == Next(s, sep, start)
  {
    pos := start;
    while pos <= |s| && !Occurs(s, sep, pos)
      invariant start <= pos <= |s| + 1
      invariant Next(s, sep, start) == Next(s, sep, pos)
    {
      pos := pos + 1;
    }
  }

  function Next(s: string, sep: string, start: nat): (pos: nat)
    requires start <= |s| + 1
    ensures start <= pos <= |s| + 1 && (pos <= |s| ==> pos + |sep| <= |s|)
    decreases |s| + 1 - start
  {
    if start > |s| || Occurs(s, sep, start) then start else Next(s, sep, start + 1)
  }

  lemma {:induction false} NextIsFirst(s: string, sep: string, start: nat)
    requires start <= |s| + 1
    ensures Next(s, sep, start) <= |s| ==> Occurs(s, sep, Next(s, sep, start))
    ensures forall at :: start <= at < Next(s, sep, start) && at <= |s| ==> !Occurs(s, sep, at)
    decreases |s| + 1 - start
  {
    if start <= |s| && !Occurs(s, sep, start) {
      NextIsFirst(s, sep, start + 1);
    }
  }

  /** The pieces of s[start..], cut at the leftmost occurrences of `sep`. */
  function Pieces(s: string, sep: string, start: nat): (pieces: seq<string>)
    requires sep != [] && start <= |s|
    ensures pieces != []
    decreases |s| - start
  {
    var pos := Next(s, sep, start);
    if pos > |s| then [s[start..]] else [s[start..pos]] + Pieces(s, sep, pos + |sep|)
  }

  lemma PiecesStep(s: string, sep: string, start: nat)
    requires sep != [] && start <= |s| && Next(s, sep, start) <= |s|
    ensures var pos, pieces := Next(s, sep, start), Pieces(s, sep, start);
      pieces[0] == s[start..pos] && pieces[1..] == Pieces(s, sep, pos + |sep|) && |pieces| > 1
  {
  }

  function Join(pieces: seq<string>, sep: string): string
    requires pieces != []
  {
    if |pieces| == 1 then pieces[0] else pieces[0] + sep + Join(pieces[1..], sep)
  }

  lemma CutAtNext(s: string, sep: string, start: nat)
    requires start <= |s| && Next(s, sep, start) <= |s|
    ensures var pos := Next(s, sep, start); s[start..] == s[start..pos] + sep + s[pos + |sep|..]
  {
    NextIsFirst(s, sep, start);
  }

  lemma {:induction false} JoinRestores(s: string, sep: string, start: nat)
    requires sep != [] && start <= |s|
    ensures Join(Pieces(s, sep, start), sep) == s[start..]
    decreases |s| - start
  {
    var pos, pieces := Next(s, sep, start), Pieces(s, sep, start);
    if pos <= |s| {
      JoinRestores(s, sep, pos + |sep|);
      PiecesStep(s, sep, start);
      calc {
        Join(pieces, sep);
        pieces[0] + sep + Join(pieces[1..], sep);
        s[start..pos] + sep + s[pos + |sep|..];
        { CutAtNext(s, sep, start); }
        s[start..];
      }
    }
  }

  lemma {:induction false} NoPieceContains(s: string, sep: string, start: nat, k: nat)
    requires sep != [] && start <= |s| && k < |Pieces(s, sep, start)|
    ensures !Contains(Pieces(s, sep, start)[k], sep)
    decreases |s| - start
  {
    var pos := Next(s, sep, start);
    NextIsFirst(s, sep, start);
    if pos <= |s| && k > 0 {
      NoPieceContains(s, sep, pos + |sep|, k - 1);
    } else {
      var end := if pos <= |s| then pos else |s|;
      var piece := s[start..end];
      assert Pieces(s, sep, start)[k] == piece;
      forall at | 0 <= at <= |piece| ensures !Occurs(piece, sep, at) {
        if at + |sep| <= |piece| {
          assert piece[at..at + |sep|] == s[start + at..start + at + |sep|];
          assert !Occurs(s, sep, start + at);
        }
      }
    }
  }

  // Trimming ------------------------------------------------------------------------------

  /** Nothing but blanks from a to before b. */
  predicate Blank(s: string, a: nat, b: nat)
    requires b <= |s|
  {
    forall k :: a <= k < b ==> s[k] == ' '
  }

  function TrimLeft(s: string): (t: string)
    ensures |t| <= |s| && s[|s| - |t|..] == t && Blank(s, 0, |s| - |t|)
    ensures t == [] || t[0] != ' '
  {
    if s != [] && s[0] == ' ' then TrimLeft(s[1..]) else s
  }

  function TrimRight(s: string): (t: string)
    ensures t <= s && Blank(s, |t|, |s|)
    ensures t == [] || t[|t| - 1] != ' '
  {
    if s != [] && s[|s| - 1] == ' ' then TrimRight(s[..|s| - 1]) else s
  }

  function TrimStr(s: string): string { TrimRight(TrimLeft(s)) }

  /** What one piece contributes to the result. */
  function Kept(piece: string, canEmpty: bool, needTrim: bool): seq<string> {
    var part := if needTrim then TrimStr(piece) else piece;
    if part != [] || canEmpty then [part] else []
  }

  /** The contributions of all pieces, in order, after `strs`. */
  function KeptInto(strs: seq<string>, pieces: seq<string>, canEmpty: bool, needTrim: bool): seq<string>
    decreases |pieces|
  {
    if pieces == [] then strs else KeptInto(strs + Kept(pieces[0], canEmpty, needTrim), pieces[1..], canEmpty, needTrim)
  }

  method Append(strs: seq<string>, piece: string, canEmpty: bool, needTrim: bool) returns (longer: seq<string>)
    ensures longer == strs + Kept(piece, canEmpty, needTrim)
  {
    var strPart := piece;
    if needTrim {
      strPart := TrimStr(strPart);
    }
    longer := strs;
    if strPart != [] || canEmpty {
      longer := strs + [strPart];
    }
  }

  /** SplitStr: the pieces of the (trimmed) string, each trimmed and filtered as asked. */
  method SplitStr(str: string, sep: string, canEmpty: bool, needTrim: bool) returns (strs: seq<string>)
    ensures var strTmp := if needTrim then TrimStr(str) else str;
      strs == if sep == [] then [strTmp] else KeptInto([], Pieces(strTmp, sep, 0), canEmpty, needTrim)
  {
    var strTmp := if needTrim then TrimStr(str) else str;
    if sep == [] {
      return [strTmp];
    }
    strs := SplitLoop(strTmp, sep, canEmpty, needTrim);
    LoopIsKept([], strTmp, sep, 0, canEmpty, needTrim);
  }

  /** The loop as a recursion: `strs` so far, the cursor at `start`. */
  function Loop(strs: seq<string>, s: string, sep: string, start: nat, canEmpty: bool, needTrim: bool): seq<string>
    requires sep != [] && start <= |s|
    decreases |s| - start
  {
    var pos := Next(s, sep, start);
    if pos > |s| then strs + Kept(s[start..], canEmpty, needTrim)
    else Loop(strs + Kept(s[start..pos], canEmpty, needTrim), s, sep, pos + |sep|, canEmpty, needTrim)
  }

  lemma {:induction false} LoopIsKept(strs: seq<string>, s: string, sep: string, start: nat,
                                     canEmpty: bool, needTrim: bool)
    requires sep != [] && start <= |s|
    ensures Loop(strs, s, sep, start, canEmpty, needTrim) == KeptInto(strs, Pieces(s, sep, start), canEmpty, needTrim)
    decreases |s| - start
  {
    var pos, pieces := Next(s, sep, start), Pieces(s, sep, start);
    if pos <= |s| {
      PiecesStep(s, sep, start);
      LoopIsKept(strs + Kept(s[start..pos], canEmpty, needTrim), s, sep, pos + |sep|, canEmpty, needTrim);
    } else {
      assert pieces[1..] == [];
    }
  }

  method SplitLoop(strTmp: string, sep: string, canEmpty: bool, needTrim: bool) returns (strs: seq<string>)
    requires sep != []
    ensures strs == Loop([], strTmp, sep, 0, canEmpty, needTrim)
  {
    strs := [];
    var start := 0;
    var pos := Find(strTmp, sep, start);
    ghost var goal := Loop([], strTmp, sep, 0, canEmpty, needTrim);
    while pos <= |strTmp|
      invariant start <= |strTmp| && pos == Next(strTmp, sep, start)
      invariant Loop(strs, strTmp, sep, start, canEmpty, needTrim) == goal
      decreases |strTmp| - start
    {
      strs, start := AppendNext(strs, strTmp, sep, start, pos, canEmpty, needTrim);
      pos := Find(strTmp, sep, start);
    }
    strs := AppendLast(strs, strTmp, sep, start, canEmpty, needTrim);
  }

  /** Adds the piece from `start` to the end. */
  method AppendLast(strs: seq<string>, s: string, sep: string, start: nat, canEmpty: bool, needTrim: bool)
      returns (longer: seq<string>)
    requires sep != [] && start <= |s| < Next(s, sep, start)
    ensures longer == Loop(strs, s, sep, start, canEmpty, needTrim)
  {
    LoopStep(strs, s, sep, start, canEmpty, needTrim);
    longer := Append(strs, s[start..], canEmpty, needTrim);
  }

  /** Adds the piece from `start` to the separator at `pos`, and moves on past that. */
  method AppendNext(strs: seq<string>, s: string, sep: string, start: nat, pos: nat, canEmpty: bool, needTrim: bool)
      returns (longer: seq<string>, next: nat)
    requires sep != [] && start <= |s| && pos == Next(s, sep, start) && pos <= |s|
    ensures start < next <= |s|
    ensures Loop(longer, s, sep, next, canEmpty, needTrim) == Loop(strs, s, sep, start, canEmpty, needTrim)
  {
    LoopStep(strs, s, sep, start, canEmpty, needTrim);
    longer := Append(strs, s[start..pos], canEmpty, needTrim);
    next := pos + |sep|;
  }

  lemma LoopStep(strs: seq<string>, s: string, sep: string, start: nat, canEmpty: bool, needTrim: bool)
    requires sep != [] && start <= |s|
    ensures var pos := Next(s, sep, start);
      Loop(strs, s, sep, start, canEmpty, needTrim) ==
        if pos > |s| then strs + Kept(s[start..], canEmpty, needTrim)
        else Loop(strs + Kept(s[start..pos], canEmpty, needTrim), s, sep, pos + |sep|, canEmpty, needTrim)
  {
  }

  lemma {:induction false} KeepingAll(strs: seq<string>, pieces: seq<string>)
    ensures KeptInto(strs, pieces, true, false) == strs + pieces
    decreases |pieces|
  {
    if pieces != [] {
      KeepingAll(strs + [pieces[0]], pieces[1..]);
    }
  }

  /** With empties kept and no trimming, joining the pieces gives the string back, and no piece
      contains the separator. */
  method SplitExactly(str: string, sep: string) returns (strs: seq<string>)
    requires sep != []
    ensures strs != [] && Join(strs, sep) == str
    ensures forall k :: 0 <= k < |strs| ==> !Contains(strs[k], sep)
  {
    strs := SplitStr(str, sep, true, false);
    KeepingAll([], Pieces(str, sep, 0));
    assert strs == Pieces(str, sep, 0) && str[0..] == str;
    JoinRestores(str, sep, 0);
    forall k | 0 <= k < |strs| ensures !Contains(strs[k], sep) {
      NoPieceContains(str, sep, 0, k);
    }
  }

  /** The loop of StrSplit as a recursion: the n-th piece from `begin` on, or nothing. */
  function PieceAt(s: string, sep: string, begin: nat, n: nat): string
    requires sep != [] && begin <= |s|
    decreases n
  {
    var end := Next(s, sep, begin);
    if n == 0 then (if end > |s| then s[begin..] else s[begin..end])
    else if end > |s| then "" else PieceAt(s, sep, end + |sep|, n - 1)
  }

  lemma {:induction false} PieceAtIsNth(s: string, sep: string, begin: nat, n: nat)
    requires sep != [] && begin <= |s|
    ensures PieceAt(s, sep, begin, n) == Nth(Pieces(s, sep, begin), n)
    decreases n
  {
    var end, pieces := Next(s, sep, begin), Pieces(s, sep, begin);
    if n > 0 && end <= |s| {
      PiecesStep(s, sep, begin);
      PieceAtIsNth(s, sep, end + |sep|, n - 1);
      NthOfRest(pieces, n);
    }
  }

  function Nth(pieces: seq<string>, n: nat): string { if n < |pieces| then pieces[n] else "" }

  lemma NthOfRest(pieces: seq<string>, n: nat)
    requires n > 0 && pieces != []
    ensures Nth(pieces, n) == Nth(pieces[1..], n - 1)
  {
  }

  /** StrSplit: the index-th piece on ':', or nothing; the 16-bit counter stops before it could wrap. */
  method StrSplit(str: string, index: nat) returns (piece: string)
    requires index < 0x1_0000
    ensures var pieces := Pieces(str, ":", 0); piece == if index < |pieces| then pieces[index] else ""
  {
    PieceAtIsNth(str, ":", 0, index);
    piece := StrSplitLoop(str, index);
  }

  method StrSplitLoop(str: string, index: nat) returns (piece: string)
    requires index < 0x1_0000
    ensures piece == PieceAt(str, ":", 0, index)
  {
    var begin := 0;
    var curIndex: nat := 0;
    while begin <= |str|
      invariant begin <= |str| && curIndex <= index &&
        PieceAt(str, ":", begin, index - curIndex) == PieceAt(str, ":", 0, index)
      decreases |str| - begin
    {
      var end := Find(str, ":", begin);
      if curIndex == index {
        return if end > |str| then str[begin..] else str[begin..end];
      }
      if end > |str| {
        break;
      }
      begin := end + 1;
      curIndex := (curIndex + 1) % 0x1_0000;
    }
    return "";
  }

  // Filtering -------------------------------------------------------------------------------

  /** Trimming drops exactly the blanks at both ends. */
  lemma TrimsBothEnds(s: string)
    ensures exists a: nat, b: nat :: a <= b <= |s| && TrimmedAt(s, a, b) && TrimStr(s) == s[a..b]
  {
    var t := TrimLeft(s);
    var a, b := |s| - |t|, |s| - |t| + |TrimRight(t)|;
    CutsRight(s, t, TrimRight(t), a, b);
    assert TrimmedAt(s, a, b);
  }

  /** Outside s[a..b] there are only blanks, and it neither begins nor ends with one. */
  predicate TrimmedAt(s: string, a: nat, b: nat)
    requires a <= b <= |s|
  {
    Blank(s, 0, a) && Blank(s, b, |s|) && (a < b ==> s[a] != ' ' && s[b - 1] != ' ')
  }

  lemma CutsRight(s: string, t: string, u: string, a: nat, b: nat)
    requires a <= |s| && t == s[a..] && u <= t && b == a + |u|
    requires Blank(s, 0, a) && Blank(t, |u|, |t|)
    requires (t == [] || t[0] != ' ') && (u == [] || u[|u| - 1] != ' ')
    ensures b <= |s| && u == s[a..b] && TrimmedAt(s, a, b)
  {
    forall k | b <= k < |s| ensures s[k] == ' ' {
      assert s[k] == t[k - a];
    }
  }

  function Part(piece: string, needTrim: bool): string { if needTrim then TrimStr(piece) else piece }

  /** Piece j stays in the result. */
  predicate Stays(pieces: seq<string>, j: nat, canEmpty: bool, needTrim: bool) {
    j < |pieces| && (canEmpty || Part(pieces[j], needTrim) != "")
  }

  /** `at` lists, in order, the positions of the pieces that stay, and `strs` holds those pieces. */
  ghost predicate Selects(strs: seq<string>, pieces: seq<string>, at: seq<nat>, canEmpty: bool, needTrim: bool) {
    && |strs| == |at|
    && (forall i :: 0 <= i < |at| ==>
          Stays(pieces, at[i], canEmpty, needTrim) && strs[i] == Part(pieces[at[i]], needTrim))
    && (forall i, j :: 0 <= i < j < |at| ==> at[i] < at[j])
    && (forall j :: 0 <= j < |pieces| && Stays(pieces, j, canEmpty, needTrim) ==> j in at)
  }

  lemma SelectsMore(strs: seq<string>, pieces: seq<string>, at: seq<nat>, piece: string, canEmpty: bool, needTrim: bool)
      returns (more: seq<nat>)
    requires Selects(strs, pieces, at, canEmpty, needTrim)
    ensures Selects(strs + Kept(piece, canEmpty, needTrim), pieces + [piece], more, canEmpty, needTrim)
  {
    var longer := pieces + [piece];
    assert forall j :: 0 <= j < |pieces| ==> longer[j] == pieces[j];
    assert longer[|pieces|] == piece;
    if Kept(piece, canEmpty, needTrim) == [] {
      more := at;
    } else {
      more := at + [|pieces|];
    }
    forall j | 0 <= j < |longer| && Stays(longer, j, canEmpty, needTrim) ensures j in more {
      if j < |pieces| {
        assert Stays(pieces, j, canEmpty, needTrim);
        assert j in at;
      } else {
        assert more[|at|] == j;
      }
    }
  }

  /** The result has exactly the pieces that are not empty after trimming, or all of them, in order. */
  lemma {:induction false} KeptSelects(strs: seq<string>, done: seq<string>, at: seq<nat>, pieces: seq<string>,
                                       canEmpty: bool, needTrim: bool) returns (more: seq<nat>)
    requires Selects(strs, done, at, canEmpty, needTrim)
    ensures Selects(KeptInto(strs, pieces, canEmpty, needTrim), done + pieces, more, canEmpty, needTrim)
    decreases |pieces|
  {
    if pieces == [] {
      more := at;
      assert done + pieces == done;
    } else {
      var next := SelectsMore(strs, done, at, pieces[0], canEmpty, needTrim);
      var strs' := strs + Kept(pieces[0], canEmpty, needTrim);
      more := KeptSelects(strs', done + [pieces[0]], next, pieces[1..], canEmpty, needTrim);
      assert done + [pieces[0]] + pieces[1..] == done + pieces;
    }
  }

  /** SplitStr for any separator that is not empty: the selected pieces of the (trimmed) string. */
  method SplitSelects(str: string, sep: string, canEmpty: bool, needTrim: bool)
      returns (strs: seq<string>, ghost at: seq<nat>)
    requires sep != []
    ensures var whole := if needTrim then TrimStr(str) else str;
      Selects(strs, Pieces(whole, sep, 0), at, canEmpty, needTrim)
  {
    strs := SplitStr(str, sep, canEmpty, needTrim);
    ghost var whole := if needTrim then TrimStr(str) else str;
    at := KeptSelects([], [], [], Pieces(whole, sep, 0), canEmpty, needTrim);
    assert [] + Pieces(whole, sep, 0) == Pieces(whole, sep, 0);
  }
}
