/**
 * Two places where the code does not do what it evidently means to, each shown on an input
 * and paired with the corrected definition and the property it then has. The editor class
 * keeps the behaviour as written; these definitions stand beside it.
 */
module Findings {
  import opened Wrappers
  import opened Blocks
  import opened Controller
  import opened Keys
  import opened Menu

  /**
   * As written, Enter on a block that has a successor does not insert a block: it writes the
   * second piece over the successor's text, whatever that text was.
   */
  lemma EnterOverwritesNextBlock(s: State, i: nat, ctrl: bool, caret: nat, text: string)
    requires i + 1 < |s.blocks|
    ensures var r := OnKeyDown(s, i, Enter, ctrl, caret, text).state;
      && |r.blocks| == |s.blocks|
      && r.blocks[i + 1].contents == text[Cut(caret, |text|)..]
  {
    EnterSplits(s, i, ctrl, caret, text);
  }

  /** On `["ab", "cd"]`, Enter in "ab" at offset 1 yields `["a", "b"]`: "cd" is lost. */
  lemma EnterLosesText(a: Block, c: Block, n: nat)
    requires a.contents == "ab" && c.contents == "cd"
    ensures var r := OnKeyDown(State([a, c], n, []), 0, Enter, false, 1, "ab").state;
      && Texts(r.blocks) == ["a", "b"]
      && "cd" !in Texts(r.blocks)
  {
    EnterSplits(State([a, c], n, []), 0, false, 1, "ab");
    var r := OnKeyDown(State([a, c], n, []), 0, Enter, false, 1, "ab").state;
    assert "ab"[..1] == "a" && "ab"[1..] == "b";
    assert |Texts(r.blocks)| == 2 && Texts(r.blocks)[0] == "a" && Texts(r.blocks)[1] == "b";
  }

  /**
   * Enter as intended: block `i` keeps the text before the caret and a new default block
   * with a fresh id, the rest of the text and a pending caret of 0 is inserted after it.
   */
  function SplitInsert(s: State, i: nat, caret: nat, text: string): (r: State)
    requires i < |s.blocks|
    ensures |r.blocks| == |s.blocks| + 1 && r.nextId == s.nextId + 1
    ensures r.blocks[i] == s.blocks[i].(contents := text[..Cut(caret, |text|)])
    ensures r.blocks[i + 1] == Block(s.nextId, P, text[Cut(caret, |text|)..], None, None, None, Some(Offset(0)))
    ensures forall j :: 0 <= j < i ==> r.blocks[j] == s.blocks[j]
    ensures forall j :: i < j < |s.blocks| ==> r.blocks[j + 1] == s.blocks[j]
    ensures |r.published| == |s.published| + 1 && r.published[|s.published|] == r.blocks
  {
    var k := Cut(caret, |text|);
    var (id, s1) := Controller.CreateKey(s);
    var added := RichBlockDefault(NoChange.(caret := Some(Some(Offset(0))), contents := Some(text[k..])), id);
    var bs := s.blocks[..i] + [s.blocks[i].(contents := text[..k]), added] + s.blocks[i + 1..];
    State(bs, s1.nextId, s.published + [bs])
  }

  /**
   * With the intended split, splitting any block and then pressing Backspace at the start of
   * the new block restores the texts of the whole list and its length.
   */
  lemma {:induction false} SplitInsertMergeRoundTrip(s: State, i: nat, caret: nat, ctrl: bool)
    requires i < |s.blocks|
    ensures var text := s.blocks[i].contents;
      var r1 := SplitInsert(s, i, caret, text);
      var r2 := OnKeyDown(r1, i + 1, Backspace, ctrl, 0, r1.blocks[i + 1].contents).state;
      && |r2.blocks| == |s.blocks|
      && Texts(r2.blocks) == Texts(s.blocks)
  {
    var text := s.blocks[i].contents;
    var k := Cut(caret, |text|);
    var r1 := SplitInsert(s, i, caret, text);
    var after := r1.blocks[i + 1].contents;
    assert text[..k] + after == text;
    BackspaceMerges(r1, i + 1, ctrl, 0, after);
    var r2 := OnKeyDown(r1, i + 1, Backspace, ctrl, 0, after).state;
    assert r2.blocks[i].contents == text;
    forall j | 0 <= j < |s.blocks| ensures r2.blocks[j].contents == s.blocks[j].contents {
      if j > i {
        assert r2.blocks[j] == r1.blocks[j + 1] == s.blocks[j];
      }
    }
    assert forall j :: 0 <= j < |s.blocks| ==> Texts(r2.blocks)[j] == Texts(s.blocks)[j];
  }

  /** `changeAttr` as intended: the edited copy of `attribute` is written back to `attribute`. */
  function IntendedAttrPatch(b: Block, name: string, value: string): (p: Patch)
    ensures forall c :: Overlay(c, p) == c.(attribute := Some(EditedAttr(b, name, value)))
  {
    NoChange.(attribute := Some(EditedAttr(b, name, value)))
  }

  /**
   * With the intended edit the rendered `attribute` map carries the new value, and two
   * edits of different attributes in a row keep both, unlike `Menu.AttrEditsDoNotAccumulate`.
   */
  lemma {:induction false} IntendedAttrEditsAccumulate(b: Block, n1: string, v1: string, n2: string, v2: string)
    requires n1 != n2
    ensures var b1 := Overlay(b, IntendedAttrPatch(b, n1, v1));
      var b2 := Overlay(b1, IntendedAttrPatch(b1, n2, v2));
      && AttributeOf(b1)[n1] == Str(v1)
      && AttributeOf(b2)[n1] == Str(v1)
      && AttributeOf(b2)[n2] == Str(v2)
  {
    var b1 := Overlay(b, IntendedAttrPatch(b, n1, v1));
    assert AttributeOf(b1) == EditedAttr(b, n1, v1);
    var b2 := Overlay(b1, IntendedAttrPatch(b1, n2, v2));
    assert AttributeOf(b2) == EditedAttr(b1, n2, v2);
  }

  /** On a link block with no attributes, setting `href` as written leaves nothing to render. */
  lemma HrefEditNotRendered(b: Block, url: string)
    requires b.tag == A && b.attribute.None?
    ensures Overlay(b, AttrPatch(b, "href", url)).attribute.None?
    ensures Overlay(b, AttrPatch(b, "href", url)).attributes == Some(map["href" := Str(url)])
  {
    AttrEditNotRendered(b, "href", url);
  }
}
