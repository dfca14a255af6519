/**
 * The map updates behind the `BlockMenu` form: `changeTag`, `changeStyle` and `changeAttr`
 * each build the spread operand that is passed to `changeContent` for the focused block.
 */
module Menu {
  import opened Wrappers
  import opened Blocks

  /** `props.content.style`, read as `{ ...{}, ...style }`: an absent map is empty. */
  function StyleOf(b: Block): Props
  {
    b.style.GetOr(map[])
  }

  /** `props.content.attribute`, read the same way. */
  function AttributeOf(b: Block): Props
  {
    b.attribute.GetOr(map[])
  }

  /** `changeTag`: `{ tag }`. */
  function TagPatch(t: Tag): (p: Patch)
    ensures forall b :: Overlay(b, p) == b.(tag := t)
  {
    NoChange.(tag := Some(t))
  }

  /** A copy of the block's style with the input's `name` set to its value. */
  function EditedStyle(b: Block, name: string, value: string): (m: Props)
    ensures m.Keys == StyleOf(b).Keys + {name}
    ensures m[name] == Str(value)
    ensures forall k :: k in StyleOf(b) && k != name ==> m[k] == StyleOf(b)[k]
  {
    StyleOf(b)[name := Str(value)]
  }

  /** `changeStyle`: `{ style: _style }`. */
  function StylePatch(b: Block, name: string, value: string): (p: Patch)
    ensures forall c :: Overlay(c, p) == c.(style := Some(EditedStyle(b, name, value)))
  {
    NoChange.(style := Some(EditedStyle(b, name, value)))
  }

  /** A copy of the block's `attribute` map with the input's `name` set to its value. */
  function EditedAttr(b: Block, name: string, value: string): (m: Props)
    ensures m.Keys == AttributeOf(b).Keys + {name}
    ensures m[name] == Str(value)
    ensures forall k :: k in AttributeOf(b) && k != name ==> m[k] == AttributeOf(b)[k]
  {
    AttributeOf(b)[name := Str(value)]
  }

  /** `changeAttr` as written: the copy of `attribute` is stored under the key `attributes`. */
  function AttrPatch(b: Block, name: string, value: string): (p: Patch)
    ensures forall c :: Overlay(c, p) == c.(attributes := Some(EditedAttr(b, name, value)))
    ensures forall c :: Overlay(c, p).attribute == c.attribute
  {
    NoChange.(attributes := Some(EditedAttr(b, name, value)))
  }

  /** A style edit replaces the style map and nothing else; earlier entries survive. */
  lemma StyleEditApplies(b: Block, name: string, value: string)
    ensures var r := Overlay(b, StylePatch(b, name, value));
      && r == b.(style := Some(EditedStyle(b, name, value)))
      && StyleOf(r)[name] == Str(value)
      && (forall k :: k in StyleOf(b) ==> k in StyleOf(r))
  {
  }

  /** Two style edits of different properties in a row keep both. */
  lemma {:induction false} StyleEditsAccumulate(b: Block, n1: string, v1: string, n2: string, v2: string)
    requires n1 != n2
    ensures var b1 := Overlay(b, StylePatch(b, n1, v1));
      var b2 := Overlay(b1, StylePatch(b1, n2, v2));
      StyleOf(b2)[n1] == Str(v1) && StyleOf(b2)[n2] == Str(v2)
  {
    var b1 := Overlay(b, StylePatch(b, n1, v1));
    StyleEditApplies(b, n1, v1);
    StyleEditApplies(b1, n2, v2);
  }

  /** An attribute edit as written never changes `attribute`, the map that is rendered. */
  lemma AttrEditNotRendered(b: Block, name: string, value: string)
    ensures var r := Overlay(b, AttrPatch(b, name, value));
      && r.attribute == b.attribute
      && r == b.(attributes := Some(EditedAttr(b, name, value)))
  {
  }

  /**
   * Because each attribute edit starts again from `attribute`, a second edit discards the
   * first: after editing `n1` and then `n2`, `attributes` holds only `n2`'s edit on top of
   * the original `attribute` map.
   */
  lemma AttrEditsDoNotAccumulate(b: Block, n1: string, v1: string, n2: string, v2: string)
    ensures var b1 := Overlay(b, AttrPatch(b, n1, v1));
      var b2 := Overlay(b1, AttrPatch(b1, n2, v2));
      b2.attributes == Some(AttributeOf(b)[n2 := Str(v2)])
  {
  }
}
