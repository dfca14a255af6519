/**
 * `EditorItem.onKeyDown`: the key press on block `i` turned into the sequence of controller
 * calls the handler makes. The DOM is abstracted as the handler's inputs: the offset
 * `getCurrentCaret()` returns and the element's `textContent`.
 */
module Keys {
  import opened Wrappers
  import opened Blocks
  import opened Controller

  /** The values of `e.key` the handler distinguishes; any other key is `OtherKey`. */
  datatype KeyName =
    | Enter | ArrowUp | ArrowDown | ArrowLeft | ArrowRight | Backspace | Delete | Home | End
    | OtherKey(name: string)

  /** The state after the handler, and whether it called `e.preventDefault()`. */
  datatype Reaction = Reaction(state: State, prevented: bool)

  /** Where `String.prototype.substring` cuts a string of length `len` at a non-negative `c`. */
  function Cut(c: nat, len: nat): (k: nat)
    ensures k <= len
    ensures k == c || (k == len && c > len)
  {
    if c < len then c else len
  }

  /** `{ caret: t }` */
  function CaretPatch(t: CaretTarget): (p: Patch)
    ensures forall b :: Overlay(b, p) == b.(caret := Some(t))
  {
    NoChange.(caret := Some(Some(t)))
  }

  /** `{ caret: at, contents, id }`, the operand of both merges. */
  function MergePatch(id: BlockId, contents: string, at: nat): (p: Patch)
    ensures forall b :: Overlay(b, p) == b.(id := id, contents := contents, caret := Some(Offset(at)))
  {
    NoChange.(id := Some(id), contents := Some(contents), caret := Some(Some(Offset(at))))
  }

  /**
   * The Enter branch. Block `i` keeps the text before the cut and block `i + 1` gets the rest
   * and a pending caret of 0, so the two pieces make up `text`. The list grows only when `i`
   * is the last block (the new block takes the fresh id); otherwise the existing block `i + 1`
   * keeps its id, tag, style and attributes and its text is overwritten. Nothing else
   * changes, and two copies are published, the last being the final list.
   */
  function Split(s: State, i: nat, caret: nat, text: string): (r: State)
    requires i < |s.blocks|
    ensures var k := Cut(caret, |text|);
      && |r.blocks| == |s.blocks| + (if i + 1 == |s.blocks| then 1 else 0)
      && r.nextId == s.nextId + (if i + 1 == |s.blocks| then 1 else 0)
      && r.blocks[i] == s.blocks[i].(contents := text[..k])
      && r.blocks[i].contents + r.blocks[i + 1].contents == text
      && (i + 1 < |s.blocks| ==>
            r.blocks[i + 1] == s.blocks[i + 1].(contents := text[k..], caret := Some(Offset(0))))
      && (i + 1 == |s.blocks| ==>
            r.blocks[i + 1] == Block(s.nextId, P, text[k..], None, None, None, Some(Offset(0))))
      && (forall j :: 0 <= j < |s.blocks| && j != i && j != i + 1 ==> r.blocks[j] == s.blocks[j])
    ensures |r.published| == |s.published| + 2 && r.published[..|s.published|] == s.published
    ensures r.published[|r.published| - 1] == r.blocks
  {
    var k := Cut(caret, |text|);
    assert text[..k] + text[k..] == text;
    var s1 := Change(s, i, NoChange.(contents := Some(text[..k])));
    Change(s1, i + 1, NoChange.(caret := Some(Some(Offset(0))), contents := Some(text[k..])))
  }

  /**
   * The Backspace branch for `i > 0`. Block `i - 1` gets its old text followed by `text`, a
   * caret at its old length and a fresh id; block `i` is removed and the others keep their
   * order. Two copies are published, the last being the final list.
   */
  function MergeBackward(s: State, i: nat, text: string): (r: State)
    requires 0 < i < |s.blocks|
    ensures var prev := s.blocks[i - 1].contents;
      && |r.blocks| == |s.blocks| - 1
      && r.nextId == s.nextId + 1
      && r.blocks[i - 1] == s.blocks[i - 1].(id := s.nextId, contents := prev + text, caret := Some(Offset(|prev|)))
      && (forall j :: 0 <= j < i - 1 ==> r.blocks[j] == s.blocks[j])
      && (forall j :: i <= j < |r.blocks| ==> r.blocks[j] == s.blocks[j + 1])
    ensures |r.published| == |s.published| + 2 && r.published[..|s.published|] == s.published
    ensures r.published[|r.published| - 1] == r.blocks
  {
    var prev := s.blocks[i - 1].contents;
    var (id, s1) := CreateKey(s);
    var s2 := Change(s1, i - 1, MergePatch(id, prev + text, |prev|));
    Remove(s2, i)
  }

  /**
   * The Delete branch for a block with a successor. Block `i` gets `text` followed by the
   * next block's text, a caret at `|text|` and a fresh id; block `i + 1` is removed and the
   * others keep their order. Two copies are published, the last being the final list.
   */
  function MergeForward(s: State, i: nat, text: string): (r: State)
    requires i + 1 < |s.blocks|
    ensures
      && |r.blocks| == |s.blocks| - 1
      && r.nextId == s.nextId + 1
      && r.blocks[i] == s.blocks[i].(id := s.nextId, contents := text + s.blocks[i + 1].contents, caret := Some(Offset(|text|)))
      && (forall j :: 0 <= j < i ==> r.blocks[j] == s.blocks[j])
      && (forall j :: i + 1 <= j < |r.blocks| ==> r.blocks[j] == s.blocks[j + 1])
    ensures |r.published| == |s.published| + 2 && r.published[..|s.published|] == s.published
    ensures r.published[|r.published| - 1] == r.blocks
  {
    var next := s.blocks[i + 1].contents;
    var (id, s1) := CreateKey(s);
    var s2 := Change(s1, i, MergePatch(id, text + next, |text|));
    Remove(s2, i + 1)
  }

  /** Enter keeps the ids below the counter and keeps distinct ids distinct. */
  lemma {:induction false} SplitKeepsIds(s: State, i: nat, caret: nat, text: string)
    requires i < |s.blocks|
    requires IdsBelow(s.blocks, s.nextId)
    ensures var r := Split(s, i, caret, text);
      IdsBelow(r.blocks, r.nextId) && (UniqueIds(s.blocks) ==> UniqueIds(r.blocks))
  {
    var k := Cut(caret, |text|);
    var p1 := NoChange.(contents := Some(text[..k]));
    ChangeKeepsIds(s, i, p1);
    ChangeKeepsIds(Change(s, i, p1), i + 1, NoChange.(caret := Some(Some(Offset(0))), contents := Some(text[k..])));
  }

  /** Backspace keeps the ids below the counter and keeps distinct ids distinct. */
  lemma {:induction false} MergeBackwardKeepsIds(s: State, i: nat, text: string)
    requires 0 < i < |s.blocks|
    requires IdsBelow(s.blocks, s.nextId)
    ensures var r := MergeBackward(s, i, text);
      IdsBelow(r.blocks, r.nextId) && (UniqueIds(s.blocks) ==> UniqueIds(r.blocks))
  {
    var prev := s.blocks[i - 1].contents;
    var (id, s1) := CreateKey(s);
    var p := MergePatch(id, prev + text, |prev|);
    ChangeKeepsIds(s1, i - 1, p);
    RemoveKeepsIds(Change(s1, i - 1, p), i);
  }

  /** Delete keeps the ids below the counter and keeps distinct ids distinct. */
  lemma {:induction false} MergeForwardKeepsIds(s: State, i: nat, text: string)
    requires i + 1 < |s.blocks|
    requires IdsBelow(s.blocks, s.nextId)
    ensures var r := MergeForward(s, i, text);
      IdsBelow(r.blocks, r.nextId) && (UniqueIds(s.blocks) ==> UniqueIds(r.blocks))
  {
    var next := s.blocks[i + 1].contents;
    var (id, s1) := CreateKey(s);
    var p := MergePatch(id, text + next, |text|);
    ChangeKeepsIds(s1, i, p);
    RemoveKeepsIds(Change(s1, i, p), i + 1);
  }

  /**
   * `onKeyDown(e)` on block `i` of a list of `|s.blocks|` blocks (`props.contentLength`),
   * with `caret` the offset `getCurrentCaret()` returns and `text` the element's text.
   * After Enter there is always a block after the current one. No key press empties the list
   * or changes its length by more than one.
   */
  function OnKeyDown(s: State, i: nat, key: KeyName, ctrl: bool, caret: nat, text: string): (r: Reaction)
    requires i < |s.blocks|
    ensures key.Enter? ==> i + 1 < |r.state.blocks|
    ensures |s.blocks| - 1 <= |r.state.blocks| <= |s.blocks| + 1
    ensures |r.state.blocks| >= 1
  {
    var n := |s.blocks|;
    match key
    case Enter => Reaction(Split(s, i, caret, text), true)
    case ArrowUp =>
      if i == 0 then Reaction(s, false)
      else Reaction(Change(s, i - 1, CaretPatch(Offset(caret))), true)
    case ArrowDown =>
      if i + 1 >= n then Reaction(s, false)
      else Reaction(Change(s, i + 1, CaretPatch(Offset(caret))), true)
    case ArrowLeft =>
      if caret != 0 || i == 0 then Reaction(s, false)
      else Reaction(Change(s, i - 1, CaretPatch(Last)), true)
    case ArrowRight =>
      if i + 1 >= n || caret != |text| then Reaction(s, false)
      else Reaction(Change(s, i + 1, CaretPatch(Offset(0))), true)
    case Backspace =>
      if i == 0 then Reaction(s, false)
      else Reaction(MergeBackward(s, i, text), true)
    case Delete =>
      if i + 1 >= n || caret != |text| then Reaction(s, false)
      else Reaction(MergeForward(s, i, text), true)
    case Home =>
      if !ctrl then Reaction(s, false)
      else Reaction(Change(s, 0, CaretPatch(Offset(0))), false)
    case End =>
      if !ctrl then Reaction(s, false)
      else Reaction(Change(s, n - 1, CaretPatch(Last)), false)
    case OtherKey(_) => Reaction(s, false)
  }

  /** Enter always runs the split and prevents the default action. */
  lemma EnterSplits(s: State, i: nat, ctrl: bool, caret: nat, text: string)
    requires i < |s.blocks|
    ensures OnKeyDown(s, i, Enter, ctrl, caret, text) == Reaction(Split(s, i, caret, text), true)
  {
  }

  /**
   * Backspace merges backward, whatever the caret and the modifiers, exactly when the block
   * is not the first; on block 0 nothing happens and the default is not prevented.
   */
  lemma BackspaceMerges(s: State, i: nat, ctrl: bool, caret: nat, text: string)
    requires i < |s.blocks|
    ensures OnKeyDown(s, i, Backspace, ctrl, caret, text)
         == if i == 0 then Reaction(s, false) else Reaction(MergeBackward(s, i, text), true)
  {
  }

  /** Backspace does not look at the caret offset or at the modifier keys. */
  lemma BackspaceIgnoresCaret(s: State, i: nat, ctrl1: bool, ctrl2: bool, c1: nat, c2: nat, text: string)
    requires i < |s.blocks|
    ensures OnKeyDown(s, i, Backspace, ctrl1, c1, text) == OnKeyDown(s, i, Backspace, ctrl2, c2, text)
  {
  }

  /**
   * Delete merges forward exactly when the caret is at the end of the text and a next block
   * exists; otherwise nothing happens and the default is not prevented.
   */
  lemma DeleteMerges(s: State, i: nat, ctrl: bool, caret: nat, text: string)
    requires i < |s.blocks|
    ensures OnKeyDown(s, i, Delete, ctrl, caret, text)
         == if caret == |text| && i + 1 < |s.blocks| then Reaction(MergeForward(s, i, text), true)
            else Reaction(s, false)
  {
  }

  predicate IsNavigation(key: KeyName)
  {
    key.ArrowUp? || key.ArrowDown? || key.ArrowLeft? || key.ArrowRight? || key.Home? || key.End?
  }

  /**
   * The table of caret moves, written independently of the handler: which block receives
   * which caret instruction, or `None` when the key does nothing.
   */
  function NavigationTarget(n: nat, i: nat, key: KeyName, ctrl: bool, caret: nat, len: nat): Option<(nat, CaretTarget)>
  {
    if key.ArrowUp? && i > 0 then Some((i - 1, Offset(caret)))
    else if key.ArrowDown? && i + 1 < n then Some((i + 1, Offset(caret)))
    else if key.ArrowLeft? && caret == 0 && i > 0 then Some((i - 1, Last))
    else if key.ArrowRight? && caret == len && i + 1 < n then Some((i + 1, Offset(0)))
    else if key.Home? && ctrl && n > 0 then Some((0, Offset(0)))
    else if key.End? && ctrl && n > 0 then Some((n - 1, Last))
    else None
  }

  /**
   * A navigation key follows the table: it sets the caret of the one target block and
   * changes nothing else, or it is a no-op. It prevents the default action for the arrows
   * only; Home and End (with Ctrl) never do.
   */
  lemma NavigationFollowsTable(s: State, i: nat, key: KeyName, ctrl: bool, caret: nat, text: string)
    requires i < |s.blocks|
    requires IsNavigation(key)
    ensures var r := OnKeyDown(s, i, key, ctrl, caret, text);
      match NavigationTarget(|s.blocks|, i, key, ctrl, caret, |text|)
      case None => r == Reaction(s, false)
      case Some((j, t)) =>
        && j < |s.blocks|
        && r.state.blocks == s.blocks[j := s.blocks[j].(caret := Some(t))]
        && r.state.nextId == s.nextId
        && r.state.published == s.published + [r.state.blocks]
        && r.prevented == !(key.Home? || key.End?)
  {
    var r := OnKeyDown(s, i, key, ctrl, caret, text);
    match NavigationTarget(|s.blocks|, i, key, ctrl, caret, |text|)
    case None =>
    case Some((j, t)) =>
      assert r.state.blocks == s.blocks[j := s.blocks[j].(caret := Some(t))];
  }

  /**
   * Consequently a navigation key never changes the length, the texts, the ids, the tags,
   * the styles or the attributes, and changes at most one block.
   */
  lemma {:induction false} NavigationOnlyMovesCaret(s: State, i: nat, key: KeyName, ctrl: bool, caret: nat, text: string)
    requires i < |s.blocks|
    requires IsNavigation(key)
    ensures var r := OnKeyDown(s, i, key, ctrl, caret, text).state;
      && |r.blocks| == |s.blocks|
      && Texts(r.blocks) == Texts(s.blocks)
      && (forall j :: 0 <= j < |s.blocks| ==> r.blocks[j].(caret := s.blocks[j].caret) == s.blocks[j])
      && (forall j, k :: 0 <= j < k < |s.blocks| ==> r.blocks[j] == s.blocks[j] || r.blocks[k] == s.blocks[k])
  {
    NavigationFollowsTable(s, i, key, ctrl, caret, text);
    match NavigationTarget(|s.blocks|, i, key, ctrl, caret, |text|)
    case None =>
    case Some((j, t)) => CaretUpdateOnlyMovesCaret(s.blocks, j, t);
  }

  /** Setting the caret of one block changes no text and no other field, and no other block. */
  lemma {:induction false} CaretUpdateOnlyMovesCaret(bs: seq<Block>, j: nat, t: CaretTarget)
    requires j < |bs|
    ensures var rs := bs[j := bs[j].(caret := Some(t))];
      && Texts(rs) == Texts(bs)
      && (forall k :: 0 <= k < |bs| ==> rs[k].(caret := bs[k].caret) == bs[k])
      && (forall k, l :: 0 <= k < l < |bs| ==> rs[k] == bs[k] || rs[l] == bs[l])
  {
    var rs := bs[j := bs[j].(caret := Some(t))];
    forall k | 0 <= k < |bs| ensures Texts(rs)[k] == Texts(bs)[k] && rs[k].(caret := bs[k].caret) == bs[k] {
      if k != j { assert rs[k] == bs[k]; }
    }
    forall k, l | 0 <= k < l < |bs| ensures rs[k] == bs[k] || rs[l] == bs[l] {
      if k != j { assert rs[k] == bs[k]; } else { assert rs[l] == bs[l]; }
    }
  }

  /**
   * A key the `switch` has no case for makes no controller call and leaves the default
   * text-editing behaviour in place.
   */
  lemma OtherKeyNoOp(s: State, i: nat, name: string, ctrl: bool, caret: nat, text: string)
    requires i < |s.blocks|
    ensures OnKeyDown(s, i, OtherKey(name), ctrl, caret, text) == Reaction(s, false)
  {
  }

  /** ArrowRight at the end of the last block does nothing. */
  lemma ArrowRightAtEndOfLastBlock(s: State, ctrl: bool, text: string)
    requires |s.blocks| > 0
    ensures OnKeyDown(s, |s.blocks| - 1, ArrowRight, ctrl, |text|, text) == Reaction(s, false)
  {
  }

  /**
   * Every key press keeps the ids issued before the counter and, for a list whose ids are
   * distinct, keeps them distinct: a merge brings a fresh id, a split reuses only ids
   * already in place or takes a fresh one.
   */
  lemma {:induction false} KeysKeepIds(s: State, i: nat, key: KeyName, ctrl: bool, caret: nat, text: string)
    requires i < |s.blocks|
    requires IdsBelow(s.blocks, s.nextId)
    ensures var r := OnKeyDown(s, i, key, ctrl, caret, text).state;
      && IdsBelow(r.blocks, r.nextId)
      && (UniqueIds(s.blocks) ==> UniqueIds(r.blocks))
  {
    var n := |s.blocks|;
    match key
    case Enter => SplitKeepsIds(s, i, caret, text);
    case ArrowUp => if i > 0 { ChangeKeepsIds(s, i - 1, CaretPatch(Offset(caret))); }
    case ArrowDown => if i + 1 < n { ChangeKeepsIds(s, i + 1, CaretPatch(Offset(caret))); }
    case ArrowLeft => if caret == 0 && i > 0 { ChangeKeepsIds(s, i - 1, CaretPatch(Last)); }
    case ArrowRight => if i + 1 < n && caret == |text| { ChangeKeepsIds(s, i + 1, CaretPatch(Offset(0))); }
    case Backspace => if i > 0 { MergeBackwardKeepsIds(s, i, text); }
    case Delete => if i + 1 < n && caret == |text| { MergeForwardKeepsIds(s, i, text); }
    case Home => if ctrl { ChangeKeepsIds(s, 0, CaretPatch(Offset(0))); }
    case End => if ctrl { ChangeKeepsIds(s, n - 1, CaretPatch(Last)); }
    case OtherKey(_) =>
  }

  /**
   * A key press publishes at most two copies, appended after the earlier ones, the last of
   * them being the final list; a press that changes the list publishes at least one.
   */
  lemma {:induction false} KeysPublishFinalList(s: State, i: nat, key: KeyName, ctrl: bool, caret: nat, text: string)
    requires i < |s.blocks|
    ensures var r := OnKeyDown(s, i, key, ctrl, caret, text).state;
      && |s.published| <= |r.published| <= |s.published| + 2
      && r.published[..|s.published|] == s.published
      && (|r.published| > |s.published| ==> r.published[|r.published| - 1] == r.blocks)
      && (r.blocks != s.blocks ==> |r.published| > |s.published|)
  {
    match key
    case Enter => EnterSplits(s, i, ctrl, caret, text);
    case Backspace => BackspaceMerges(s, i, ctrl, caret, text);
    case Delete => DeleteMerges(s, i, ctrl, caret, text);
    case OtherKey(_) =>
    case _ => NavigationFollowsTable(s, i, key, ctrl, caret, text);
  }

  /**
   * Enter on the last block followed by Backspace on the new block (whose text is the
   * second piece) restores the texts of the list and its length; the merged block has a
   * fresh id and its caret at the join.
   */
  lemma {:induction false} SplitMergeRoundTripLast(s: State, caret: nat, ctrl: bool)
    requires |s.blocks| > 0
    ensures var i := |s.blocks| - 1;
      var text := s.blocks[i].contents;
      var r1 := OnKeyDown(s, i, Enter, ctrl, caret, text).state;
      var r2 := OnKeyDown(r1, i + 1, Backspace, ctrl, 0, r1.blocks[i + 1].contents).state;
      && Texts(r2.blocks) == Texts(s.blocks)
      && r2.blocks[i] == s.blocks[i].(id := s.nextId + 1, caret := Some(Offset(Cut(caret, |text|))))
      && (forall j :: 0 <= j < i ==> r2.blocks[j] == s.blocks[j])
  {
    var i := |s.blocks| - 1;
    var text := s.blocks[i].contents;
    var k := Cut(caret, |text|);
    EnterSplits(s, i, ctrl, caret, text);
    var r1 := Split(s, i, caret, text);
    var after := r1.blocks[i + 1].contents;
    BackspaceMerges(r1, i + 1, ctrl, 0, after);
    var r2 := MergeBackward(r1, i + 1, after);
    assert r2.blocks[i].contents == text;
    assert forall j :: 0 <= j < |s.blocks| ==> Texts(r2.blocks)[j] == Texts(s.blocks)[j];
  }

  /** The scenario of splitting "hello" at offset 3. */
  lemma SplitHello(b: Block, n: nat)
    requires b.contents == "hello"
    ensures var r := OnKeyDown(State([b], n, []), 0, Enter, false, 3, "hello").state;
      && Texts(r.blocks) == ["hel", "lo"]
      && r.blocks[1].caret == Some(Offset(0))
  {
    EnterSplits(State([b], n, []), 0, false, 3, "hello");
    var r := OnKeyDown(State([b], n, []), 0, Enter, false, 3, "hello").state;
    assert "hello"[..3] == "hel" && "hello"[3..] == "lo";
    assert |Texts(r.blocks)| == 2 && Texts(r.blocks)[0] == "hel" && Texts(r.blocks)[1] == "lo";
  }

  /** The scenario of Backspace at the start of "cd" after "ab". */
  lemma MergeAbCd(a: Block, c: Block, n: nat)
    requires a.contents == "ab" && c.contents == "cd"
    ensures var r := OnKeyDown(State([a, c], n, []), 1, Backspace, false, 0, "cd").state;
      && Texts(r.blocks) == ["abcd"]
      && r.blocks[0].id == n
      && r.blocks[0].caret == Some(Offset(2))
  {
    BackspaceMerges(State([a, c], n, []), 1, false, 0, "cd");
    var r := OnKeyDown(State([a, c], n, []), 1, Backspace, false, 0, "cd").state;
    assert "ab" + "cd" == "abcd";
    assert |Texts(r.blocks)| == 1 && Texts(r.blocks)[0] == "abcd";
  }
}
