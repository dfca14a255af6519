/**
 * The `Editor` component's state and the handlers that change it in place: the list
 * controller (`getContent`, `changeContent`, `removeContent`), the key handler of each
 * `EditorItem`, its input and caret effects, and the `BlockMenu` edits. Every method is
 * proved against the functions of `Controller`, `Keys` and `Menu`.
 */
module EditorComponent {
  import opened Wrappers
  import opened Blocks
  import opened Controller
  import opened Keys
  import opened CaretPlacement
  import opened Menu

  class Editor {
    /** `Contents`, mutated in place. */
    var blocks: seq<Block>
    /** The fresh-id supply behind `createKey`. */
    var nextId: nat
    /** The copies `updateContent` handed to `setContents`, oldest first. */
    var published: seq<seq<Block>>

    function Snapshot(): State
      reads this
    {
      State(blocks, nextId, published)
    }

    /** Every id in the list was issued by the supply, so the supply's next id is fresh. */
    ghost predicate Valid()
      reads this
    {
      IdsBelow(blocks, nextId)
    }

    /** `useState(props.content || [getRichBlockDefault()])`. */
    constructor (content: Option<seq<Block>>)
      ensures Snapshot() == Init(content)
      ensures Valid()
    {
      published := [];
      if content.None? {
        blocks := [RichBlockDefault(NoChange, 0)];
        nextId := 1;
      } else {
        blocks := content.value;
        nextId := IdBound(content.value);
      }
    }

    /** `createKey()`. */
    method CreateKey() returns (k: BlockId)
      modifies this
      ensures (k, Snapshot()) == Controller.CreateKey(old(Snapshot()))
      ensures old(Valid()) ==> Valid()
    {
      k := nextId;
      nextId := nextId + 1;
    }

    /** `updateContent(Contents)`: publish a copy of the current list. */
    method UpdateContent()
      modifies this
      ensures blocks == old(blocks) && nextId == old(nextId)
      ensures published == old(published) + [blocks]
      ensures old(Valid()) ==> Valid()
    {
      published := published + [blocks];
    }

    /** `getContent(key)`. */
    method GetContent(key: int) returns (r: Option<Block>)
      ensures r == Get(Snapshot(), key)
    {
      if 0 <= key < |blocks| {
        r := Some(blocks[key]);
      } else {
        r := None;
      }
    }

    /** `changeContent(key, p)`. */
    method ChangeContent(key: nat, p: Patch)
      requires key <= |blocks|
      modifies this
      ensures Snapshot() == Change(old(Snapshot()), key, p)
      ensures old(Valid()) && (p.id.Some? ==> p.id.value < old(nextId)) ==> Valid()
    {
      ghost var s := Snapshot();
      if IdsBelow(s.blocks, s.nextId) && (p.id.Some? ==> p.id.value < s.nextId) {
        ChangeKeepsIds(s, key, p);
      }
      if key < |blocks| {
        blocks := blocks[key := Overlay(blocks[key], p)];
      } else {
        var k := CreateKey();
        blocks := blocks + [Overlay(RichBlockDefault(NoChange, k), p)];
      }
      UpdateContent();
    }

    /** `removeContent(key)`. */
    method RemoveContent(key: int)
      modifies this
      ensures Snapshot() == Remove(old(Snapshot()), key)
      ensures old(Valid()) ==> Valid()
    {
      ghost var s := Snapshot();
      if IdsBelow(s.blocks, s.nextId) {
        RemoveKeepsIds(s, key);
      }
      if |blocks| == 0 || !(0 <= key < |blocks|) {
        return;
      }
      blocks := blocks[..key] + blocks[key + 1..];
      UpdateContent();
    }

    /** The Enter branch of `onKeyDown`: two calls of `changeContent`. */
    method SplitAt(i: nat, caret: nat, text: string)
      requires i < |blocks|
      modifies this
      ensures Snapshot() == Split(old(Snapshot()), i, caret, text)
      ensures old(Valid()) ==> Valid()
    {
      var k := Cut(caret, |text|);
      ChangeContent(i, NoChange.(contents := Some(text[..k])));
      ChangeContent(i + 1, NoChange.(caret := Some(Some(Offset(0))), contents := Some(text[k..])));
    }

    /** The Backspace branch of `onKeyDown` for `i > 0`. */
    method MergeIntoPrevious(i: nat, text: string)
      requires 0 < i < |blocks|
      modifies this
      ensures Snapshot() == MergeBackward(old(Snapshot()), i, text)
      ensures old(Valid()) ==> Valid()
    {
      var prev := GetContent(i - 1);
      var id := CreateKey();
      ChangeContent(i - 1, MergePatch(id, prev.value.contents + text, |prev.value.contents|));
      RemoveContent(i);
    }

    /** The Delete branch of `onKeyDown` for a block with a successor. */
    method MergeNext(i: nat, text: string)
      requires i + 1 < |blocks|
      modifies this
      ensures Snapshot() == MergeForward(old(Snapshot()), i, text)
      ensures old(Valid()) ==> Valid()
    {
      var next := GetContent(i + 1);
      var id := CreateKey();
      ChangeContent(i, MergePatch(id, text + next.value.contents, |text|));
      RemoveContent(i + 1);
    }

    /**
     * `onKeyDown(e)` of the item at index `i`, with `caret` the offset `getCurrentCaret()`
     * returns and `text` the element's `textContent`. It keeps the fresh-id supply ahead of
     * every id and keeps distinct ids distinct.
     */
    method KeyDown(i: nat, key: KeyName, ctrl: bool, caret: nat, text: string) returns (prevented: bool)
      requires i < |blocks|
      modifies this
      ensures Reaction(Snapshot(), prevented) == OnKeyDown(old(Snapshot()), i, key, ctrl, caret, text)
      ensures old(Valid()) ==> Valid()
      ensures old(Valid()) && old(UniqueIds(blocks)) ==> UniqueIds(blocks)
    {
      ghost var s := Snapshot();
      var n := |blocks|;
      prevented := false;
      match key {
        case Enter =>
          prevented := true;
          SplitAt(i, caret, text);
        case ArrowUp =>
          if i != 0 {
            prevented := true;
            ChangeContent(i - 1, CaretPatch(Offset(caret)));
          }
        case ArrowDown =>
          if i + 1 < n {
            prevented := true;
            ChangeContent(i + 1, CaretPatch(Offset(caret)));
          }
        case ArrowLeft =>
          if caret == 0 && i != 0 {
            prevented := true;
            ChangeContent(i - 1, CaretPatch(Last));
          }
        case ArrowRight =>
          if i + 1 < n && caret == |text| {
            prevented := true;
            ChangeContent(i + 1, CaretPatch(Offset(0)));
          }
        case Backspace =>
          if i != 0 {
            prevented := true;
            MergeIntoPrevious(i, text);
          }
        case Delete =>
          if i + 1 < n && caret == |text| {
            prevented := true;
            MergeNext(i, text);
          }
        case Home =>
          if ctrl {
            ChangeContent(0, CaretPatch(Offset(0)));
          }
        case End =>
          if ctrl {
            ChangeContent(n - 1, CaretPatch(Last));
          }
        case OtherKey(_) =>
      }
      if IdsBelow(s.blocks, s.nextId) {
        KeysKeepIds(s, i, key, ctrl, caret, text);
      }
    }

    /** `onInput(e)`: the item's record spread again with the element's new text. */
    method Input(i: nat, text: string)
      requires i < |blocks|
      modifies this
      ensures blocks == old(blocks)[i := old(blocks)[i].(contents := text)]
      ensures nextId == old(nextId) && published == old(published) + [blocks]
      ensures old(Valid()) ==> Valid()
    {
      OverlayRecord(blocks[i], text);
      ChangeContent(i, AsPatch(blocks[i].(contents := text)));
    }

    /** `resetCaret()`: `{ caret: undefined }`. */
    method ResetCaret(i: nat)
      requires i < |blocks|
      modifies this
      ensures blocks == old(blocks)[i := old(blocks)[i].(caret := None)]
      ensures nextId == old(nextId) && published == old(published) + [blocks]
      ensures old(Valid()) ==> Valid()
    {
      ChangeContent(i, NoChange.(caret := Some(None)));
    }

    /**
     * The effect that watches `props.content.caret`: a pending instruction is placed with
     * `moveCaret` (its offsets are the result) and then cleared, so it fires once.
     */
    method ApplyPendingCaret(i: nat, hasText: bool, len: nat) returns (r: Option<Range>)
      requires i < |blocks|
      modifies this
      ensures old(blocks[i].caret).None? ==> r.None? && Snapshot() == old(Snapshot())
      ensures old(blocks[i].caret).Some? ==>
        && r == Some(MoveCaret(hasText, len, old(blocks[i].caret).value, None))
        && blocks == old(blocks)[i := old(blocks)[i].(caret := None)]
        && nextId == old(nextId) && published == old(published) + [blocks]
      ensures blocks[i].caret.None?
      ensures old(Valid()) ==> Valid()
    {
      var target := blocks[i].caret;
      if target.None? {
        return None;
      }
      r := Some(MoveCaret(hasText, len, target.value, None));
      ResetCaret(i);
    }

    /** `BlockMenu.changeTag`. */
    method ChangeTag(i: nat, t: Tag)
      requires i < |blocks|
      modifies this
      ensures blocks == old(blocks)[i := old(blocks)[i].(tag := t)]
      ensures nextId == old(nextId) && published == old(published) + [blocks]
      ensures old(Valid()) ==> Valid()
    {
      ChangeContent(i, TagPatch(t));
    }

    /** `BlockMenu.changeStyle` for the input called `name`. */
    method ChangeStyle(i: nat, name: string, value: string)
      requires i < |blocks|
      modifies this
      ensures blocks == old(blocks)[i := old(blocks)[i].(style := Some(EditedStyle(old(blocks)[i], name, value)))]
      ensures nextId == old(nextId) && published == old(published) + [blocks]
      ensures old(Valid()) ==> Valid()
    {
      var p := StylePatch(blocks[i], name, value);
      ChangeContent(i, p);
    }

    /**
     * `BlockMenu.changeAttr` for the input called `name`, as written: the edited copy of
     * `attribute` is stored under `attributes`, so `attribute` itself never changes.
     */
    method ChangeAttr(i: nat, name: string, value: string)
      requires i < |blocks|
      modifies this
      ensures blocks == old(blocks)[i := old(blocks)[i].(attributes := Some(EditedAttr(old(blocks)[i], name, value)))]
      ensures blocks[i].attribute == old(blocks)[i].attribute
      ensures nextId == old(nextId) && published == old(published) + [blocks]
      ensures old(Valid()) ==> Valid()
    {
      var p := AttrPatch(blocks[i], name, value);
      ChangeContent(i, p);
    }
  }
}
