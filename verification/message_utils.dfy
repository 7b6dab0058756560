/**
 * Flattening a chat model's reply into plain text (src/llm/messageUtils.ts):
 * the content is a string, or an array of parts that are strings or
 * objects carrying a `text` string.
 */
module MessageUtils {
  import opened Wrappers
  import opened Text
  import opened Json

  /** What one part of array content contributes: a string itself, an object's `text` string, else nothing. */
  function PartText(part: Json): (r: string)
    ensures part.JStr? ==> r == part.s
    ensures !part.JStr? && r != [] ==> Member(Some(part), "text") == Some(JStr(r))
    ensures !part.JStr? && Member(Some(part), "text").Some? && Member(Some(part), "text").value.JStr? ==>
              r == Member(Some(part), "text").value.s
  {
    if part.JStr? then part.s
    else
      var text := Member(Some(part), "text");
      if text.Some? && text.value.JStr? then text.value.s else ""
  }

  /** `parts.map(PartText).join('')` */
  function PartsText(parts: seq<Json>): string {
    if parts == [] then "" else PartText(parts[0]) + PartsText(parts[1..])
  }

  /**
   * `extractMessageText`: nothing for a message that is not an object;
   * string content as it is; array content flattened part by part;
   * nothing for content of any other kind.
   */
  function ExtractMessageText(message: Value): (r: string)
    ensures !(message.Some? && (message.value.JObj? || message.value.JArr?)) ==> r == ""
    ensures Member(message, "content").Some? && Member(message, "content").value.JStr? ==>
              r == Member(message, "content").value.s
    ensures !(Member(message, "content").Some? && (Member(message, "content").value.JStr? || Member(message, "content").value.JArr?)) ==>
              r == ""
    ensures message.Some? && (message.value.JObj? || message.value.JArr?) &&
            Member(message, "content").Some? && Member(message, "content").value.JArr? ==>
              r == PartsText(Member(message, "content").value.items)
  {
    if !Truthy(message) || !(message.value.JObj? || message.value.JArr?) then ""
    else
      var content := Member(message, "content");
      if content.Some? && content.value.JStr? then content.value.s
      else if content.Some? && content.value.JArr? then PartsText(content.value.items)
      else ""
  }

  /** Array content is flattened in order: the text of a concatenation of parts is the concatenation of their texts. */
  lemma {:induction false} PartsTextAppend(a: seq<Json>, b: seq<Json>)
    ensures PartsText(a + b) == PartsText(a) + PartsText(b)
  {
    if a == [] {
      assert a + b == b;
    } else {
      assert (a + b)[1..] == a[1..] + b;
      PartsTextAppend(a[1..], b);
      assert PartText(a[0]) + (PartsText(a[1..]) + PartsText(b)) == (PartText(a[0]) + PartsText(a[1..])) + PartsText(b);
    }
  }

  /** Content made only of strings reads as their concatenation. */
  lemma {:induction false} PartsTextOfStrings(parts: seq<Json>, texts: seq<string>)
    requires |parts| == |texts|
    requires forall i :: 0 <= i < |parts| ==> parts[i] == JStr(texts[i])
    ensures PartsText(parts) == Concat(texts)
  {
    if parts != [] {
      PartsTextOfStrings(parts[1..], texts[1..]);
    }
  }

  /** A part that is neither a string nor an object with a `text` string adds nothing. */
  lemma PartsTextSkips(a: seq<Json>, part: Json, b: seq<Json>)
    requires !part.JStr? && !(Member(Some(part), "text").Some? && Member(Some(part), "text").value.JStr?)
    ensures PartsText(a + [part] + b) == PartsText(a) + PartsText(b)
  {
    assert PartsText([part]) == "" by {
      assert [part][1..] == [];
    }
    PartsTextAppend(a, [part]);
    assert PartsText(a + [part]) == PartsText(a);
    PartsTextAppend(a + [part], b);
  }
}
