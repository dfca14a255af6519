/**
 * The block list controller of `Editor`: the `Contents` list with `getContent`,
 * `changeContent` and `removeContent`, as functions on a value of the whole state.
 * The class `EditorComponent.Editor` holds the same state in fields and is proved
 * against these functions.
 */
module Controller {
  import opened Wrappers
  import opened Blocks

  /**
   * `Contents`, the counter behind `createKey`, and the copies `updateContent` has handed
   * to `setContents` so far (oldest first): the lists rendered and given to `onChange`.
   */
  datatype State = State(blocks: seq<Block>, nextId: nat, published: seq<seq<Block>>)

  /** Every id in the list was issued before `n`: `n` and anything after it is fresh. */
  predicate IdsBelow(bs: seq<Block>, n: nat)
  {
    forall j :: 0 <= j < |bs| ==> bs[j].id < n
  }

  /** No two blocks share an id. */
  predicate UniqueIds(bs: seq<Block>)
  {
    forall j, k :: 0 <= j < k < |bs| ==> bs[j].id != bs[k].id
  }

  /** The text of every block, in document order. */
  function Texts(bs: seq<Block>): (ts: seq<string>)
    ensures |ts| == |bs|
    ensures forall j :: 0 <= j < |bs| ==> ts[j] == bs[j].contents
  {
    if bs == [] then [] else [bs[0].contents] + Texts(bs[1..])
  }

  /** A counter value above every id of a caller-supplied list. */
  function IdBound(bs: seq<Block>): (n: nat)
    ensures IdsBelow(bs, n)
  {
    if bs == [] then 0
    else
      var rest := IdBound(bs[1..]);
      if bs[0].id < rest then rest else bs[0].id + 1
  }

  /**
   * `useState(props.content || [getRichBlockDefault()])`: without content, one empty
   * paragraph; with content, exactly that list, even an empty one.
   */
  function Init(content: Option<seq<Block>>): (s: State)
    ensures content.None? ==> s.blocks == [RichBlockDefault(NoChange, 0)]
    ensures content.Some? ==> s.blocks == content.value
    ensures IdsBelow(s.blocks, s.nextId)
    ensures content.None? ==> UniqueIds(s.blocks)
    ensures s.published == []
  {
    match content
    case None => State([RichBlockDefault(NoChange, 0)], 1, [])
    case Some(bs) => State(bs, IdBound(bs), [])
  }

  /** `getContent(key)`: the block at `key`, or `undefined` when there is none. */
  function Get(s: State, key: int): (r: Option<Block>)
    ensures r.Some? <==> 0 <= key < |s.blocks|
    ensures r.Some? ==> r.value == s.blocks[key]
  {
    if 0 <= key < |s.blocks| then Some(s.blocks[key]) else None
  }

  /**
   * `changeContent(key, p)`: `Contents[key] = { ...(Contents[key] || getRichBlockDefault()), ...p }`
   * and publish. An existing block is overlaid; at `key == |blocks|` a default block with a
   * fresh id (one call of `createKey`) is overlaid and appended.
   */
  function Change(s: State, key: nat, p: Patch): (r: State)
    requires key <= |s.blocks|
    ensures key < |s.blocks| ==> |r.blocks| == |s.blocks| && r.nextId == s.nextId
    ensures key < |s.blocks| ==> r.blocks[key] == Overlay(s.blocks[key], p)
    ensures key == |s.blocks| ==> |r.blocks| == |s.blocks| + 1 && r.nextId == s.nextId + 1
    ensures key == |s.blocks| ==> r.blocks[key] == Overlay(RichBlockDefault(NoChange, s.nextId), p)
    ensures forall j :: 0 <= j < |s.blocks| && j != key ==> r.blocks[j] == s.blocks[j]
    ensures r.published == s.published + [r.blocks]
  {
    if key < |s.blocks| then
      var bs := s.blocks[key := Overlay(s.blocks[key], p)];
      State(bs, s.nextId, s.published + [bs])
    else
      var bs := s.blocks + [Overlay(RichBlockDefault(NoChange, s.nextId), p)];
      State(bs, s.nextId + 1, s.published + [bs])
  }

  /**
   * `removeContent(key)`: a no-op (nothing published) when the list is empty or there is no
   * block at `key`; otherwise exactly that block is removed, the others keep their order,
   * and the new list is published.
   */
  function Remove(s: State, key: int): (r: State)
    ensures !(0 <= key < |s.blocks|) ==> r == s
    ensures 0 <= key < |s.blocks| ==>
      && |r.blocks| == |s.blocks| - 1
      && (forall j :: 0 <= j < key ==> r.blocks[j] == s.blocks[j])
      && (forall j :: key <= j < |r.blocks| ==> r.blocks[j] == s.blocks[j + 1])
      && multiset(r.blocks) + multiset{s.blocks[key]} == multiset(s.blocks)
      && r.nextId == s.nextId
      && r.published == s.published + [r.blocks]
  {
    if |s.blocks| == 0 || !(0 <= key < |s.blocks|) then s
    else
      var bs := s.blocks[..key] + s.blocks[key + 1..];
      assert s.blocks == s.blocks[..key] + [s.blocks[key]] + s.blocks[key + 1..];
      State(bs, s.nextId, s.published + [bs])
  }

  /** `createKey()`: the next unused id; the counter moves past it. */
  function CreateKey(s: State): (r: (BlockId, State))
    ensures IdsBelow(s.blocks, s.nextId) ==> forall j :: 0 <= j < |s.blocks| ==> s.blocks[j].id != r.0
    ensures r.1.blocks == s.blocks && r.1.published == s.published && r.1.nextId > r.0
  {
    (s.nextId, s.(nextId := s.nextId + 1))
  }

  /**
   * Two `changeContent` calls on the same existing block leave the list as one call with
   * the combined operand `{ ...p, ...q }` would; only the published log differs.
   */
  lemma {:induction false} ChangeThenChange(s: State, key: nat, p: Patch, q: Patch)
    requires key < |s.blocks|
    ensures Change(Change(s, key, p), key, q).blocks == Change(s, key, Then(p, q)).blocks
    ensures Change(Change(s, key, p), key, q).nextId == s.nextId
  {
    OverlayThen(s.blocks[key], p, q);
  }

  /** `removeContent` called directly can empty the list: removing the only block. */
  lemma RemoveCanEmpty(b: Block, n: nat)
    ensures Remove(State([b], n, []), 0).blocks == []
  {
  }

  /**
   * A change keeps every id issued and, if the patch brings no id or one no other block
   * holds, keeps the ids pairwise distinct.
   */
  lemma {:induction false} ChangeKeepsIds(s: State, key: nat, p: Patch)
    requires key <= |s.blocks|
    requires IdsBelow(s.blocks, s.nextId)
    requires p.id.Some? ==> p.id.value < s.nextId
    ensures IdsBelow(Change(s, key, p).blocks, Change(s, key, p).nextId)
    ensures UniqueIds(s.blocks) && (p.id.Some? ==> forall j :: 0 <= j < |s.blocks| && j != key ==> s.blocks[j].id != p.id.value)
      ==> UniqueIds(Change(s, key, p).blocks)
  {
    var r := Change(s, key, p);
    if UniqueIds(s.blocks) && (p.id.Some? ==> forall j :: 0 <= j < |s.blocks| && j != key ==> s.blocks[j].id != p.id.value) {
      forall j, k | 0 <= j < k < |r.blocks| ensures r.blocks[j].id != r.blocks[k].id {
        if j != key && k != key {
          assert r.blocks[j] == s.blocks[j] && r.blocks[k] == s.blocks[k];
        } else if p.id.None? && key < |s.blocks| {
          assert r.blocks[key].id == s.blocks[key].id;
        }
      }
    }
  }

  /** A removal keeps every id issued and keeps distinct ids distinct. */
  lemma {:induction false} RemoveKeepsIds(s: State, key: int)
    requires IdsBelow(s.blocks, s.nextId)
    ensures IdsBelow(Remove(s, key).blocks, Remove(s, key).nextId)
    ensures UniqueIds(s.blocks) ==> UniqueIds(Remove(s, key).blocks)
  {
    var r := Remove(s, key);
    if 0 <= key < |s.blocks| {
      forall j | 0 <= j < |r.blocks| ensures r.blocks[j].id < r.nextId {
        if j >= key { assert r.blocks[j] == s.blocks[j + 1]; }
      }
      if UniqueIds(s.blocks) {
        forall j, k | 0 <= j < k < |r.blocks| ensures r.blocks[j].id != r.blocks[k].id {
          var j' := if j < key then j else j + 1;
          var k' := if k < key then k else k + 1;
          assert r.blocks[j] == s.blocks[j'] && r.blocks[k] == s.blocks[k'];
        }
      }
    }
  }
}
