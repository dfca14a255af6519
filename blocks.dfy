/** Option, the usual stand-in for JavaScript's `undefined`. */
module Wrappers {
  datatype Option<+T> = None | Some(value: T) {
    function GetOr(default: T): T
    {
      if Some? then value else default
    }
  }
}

/**
 * The block record of the editor and the object spread `{ ...block, ...patch }`
 * through which every edit of a block is made.
 */
module Blocks {
  import opened Wrappers

  /** Block identifiers. `createKey` is modelled as a counter handing out the next unused one. */
  type BlockId = nat

  /** `RichBlockTag`: paragraph, link, heading levels 1 to 6. */
  datatype Tag = P | A | H1 | H2 | H3 | H4 | H5 | H6

  /** The values of the open style and attribute maps (`string | number`). */
  datatype Value = Str(s: string) | Num(r: real)

  type Props = map<string, Value>

  /** A pending caret instruction: a character offset, or the sentinel `'last'`. */
  datatype CaretTarget = Offset(n: int) | Last

  /**
   * `RichBlockEditType`. The optional JavaScript fields are `Option`s (`None` when the key
   * is absent or `undefined`). `attributes` is not part of the declared type: it is the key
   * that `changeAttr` writes, kept apart from `attribute`, which is the one rendered.
   */
  datatype Block = Block(
    id: BlockId,
    tag: Tag,
    contents: string,
    style: Option<Props>,
    attribute: Option<Props>,
    attributes: Option<Props>,
    caret: Option<CaretTarget>)

  /**
   * The second operand of an object spread: a field that is `None` is absent and leaves
   * the record's value alone. `caret` has three states: absent (`None`), set to
   * `undefined` (`Some(None)`), and set to a target (`Some(Some(t))`).
   */
  datatype Patch = Patch(
    id: Option<BlockId>,
    tag: Option<Tag>,
    contents: Option<string>,
    style: Option<Props>,
    attribute: Option<Props>,
    attributes: Option<Props>,
    caret: Option<Option<CaretTarget>>)

  /** The empty object `{}`. */
  const NoChange: Patch := Patch(None, None, None, None, None, None, None)

  /** `{ ...b, ...p }`: every field present in `p` wins, every other field is `b`'s. */
  function Overlay(b: Block, p: Patch): (r: Block)
    ensures Honours(r, p)
    ensures p.id.None? ==> r.id == b.id
    ensures p.tag.None? ==> r.tag == b.tag
    ensures p.contents.None? ==> r.contents == b.contents
    ensures p.style.None? ==> r.style == b.style
    ensures p.attribute.None? ==> r.attribute == b.attribute
    ensures p.attributes.None? ==> r.attributes == b.attributes
    ensures p.caret.None? ==> r.caret == b.caret
  {
    Block(
      p.id.GetOr(b.id),
      p.tag.GetOr(b.tag),
      p.contents.GetOr(b.contents),
      if p.style.Some? then p.style else b.style,
      if p.attribute.Some? then p.attribute else b.attribute,
      if p.attributes.Some? then p.attributes else b.attributes,
      p.caret.GetOr(b.caret))
  }

  /** A whole record used as a spread operand: the keys it holds. */
  function AsPatch(b: Block): Patch
  {
    Patch(Some(b.id), Some(b.tag), Some(b.contents), b.style, b.attribute, b.attributes,
          if b.caret.Some? then Some(b.caret) else None)
  }

  /** `{ ...p, ...q }`: the spread operand that has the effect of `p` followed by `q`. */
  function Then(p: Patch, q: Patch): Patch
  {
    Patch(
      if q.id.Some? then q.id else p.id,
      if q.tag.Some? then q.tag else p.tag,
      if q.contents.Some? then q.contents else p.contents,
      if q.style.Some? then q.style else p.style,
      if q.attribute.Some? then q.attribute else p.attribute,
      if q.attributes.Some? then q.attributes else p.attributes,
      if q.caret.Some? then q.caret else p.caret)
  }

  /** Every field that `p` supplies has `p`'s value in `b`. */
  predicate Honours(b: Block, p: Patch)
  {
    && (p.id.Some? ==> b.id == p.id.value)
    && (p.tag.Some? ==> b.tag == p.tag.value)
    && (p.contents.Some? ==> b.contents == p.contents.value)
    && (p.style.Some? ==> b.style == p.style)
    && (p.attribute.Some? ==> b.attribute == p.attribute)
    && (p.attributes.Some? ==> b.attributes == p.attributes)
    && (p.caret.Some? ==> b.caret == p.caret.value)
  }

  /** Spreading a patch yields a record that honours it, and spreading `{}` changes nothing. */
  lemma OverlayHonours(b: Block, p: Patch)
    ensures Honours(Overlay(b, p), p)
    ensures Overlay(b, NoChange) == b
  {
  }

  /** Two spreads in a row are one spread of the combined operand. */
  lemma OverlayThen(b: Block, p: Patch, q: Patch)
    ensures Overlay(Overlay(b, p), q) == Overlay(b, Then(p, q))
  {
  }

  /**
   * Spreading a copy of a record with one field replaced over the record itself replaces
   * that field and nothing else (the `{ ...props.content, contents }` pattern).
   */
  lemma OverlayRecord(b: Block, text: string)
    ensures Overlay(b, AsPatch(b.(contents := text))) == b.(contents := text)
  {
  }

  /**
   * `getRichBlockDefault(d)`: an empty paragraph with the fresh id `newId`, overlaid by `d`.
   * A field `d` supplies wins; every other field is the default.
   */
  function RichBlockDefault(d: Patch, newId: BlockId): (r: Block)
    ensures Honours(r, d)
    ensures d.id.None? ==> r.id == newId
    ensures d.tag.None? ==> r.tag == P
    ensures d.contents.None? ==> r.contents == ""
    ensures d.style.None? ==> r.style.None?
    ensures d.attribute.None? ==> r.attribute.None?
    ensures d.attributes.None? ==> r.attributes.None?
    ensures d.caret.None? ==> r.caret.None?
  {
    Overlay(Block(newId, P, "", None, None, None, None), d)
  }

  /** The demo's `getRichBlockDefault({ contents: 'test' })`: a paragraph reading "test". */
  lemma DefaultWithContents(newId: BlockId)
    ensures RichBlockDefault(NoChange.(contents := Some("test")), newId)
         == Block(newId, P, "test", None, None, None, None)
  {
  }

  /** The tag's name as the DOM and the select element spell it. */
  function TagName(t: Tag): string
  {
    match t
    case P => "p"
    case A => "a"
    case H1 => "h1"
    case H2 => "h2"
    case H3 => "h3"
    case H4 => "h4"
    case H5 => "h5"
    case H6 => "h6"
  }

  /**
   * The element an `EditorItem` renders (`RichBlockEditTag`): a link block is an inline
   * `span`, never an anchor; every other tag renders as itself.
   */
  function ElementName(t: Tag): (r: string)
    ensures r != "a"
    ensures r == "span" <==> t == A
    ensures t != A ==> r == TagName(t)
  {
    if t == A then "span" else TagName(t)
  }
}
