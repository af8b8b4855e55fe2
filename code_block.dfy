/** Fenced code blocks: turning the props of an MDX `pre` element into the
    code, class and language of a highlighted block, and the Copy button's
    copied/not-copied flag. */
module CodeBlock {
  import opened JsText

  // ---------------------------------------------------------------------------
  // preToCodeBlock

  /** The `children` of a `pre` element: an element whose props may be
      missing; props are modelled as string-valued keys. */
  datatype Child = Child(props: Option<map<string, string>>)

  datatype PreProps = PreProps(children: Option<Child>)

  /** `undefined` for anything but a code element; a code element without
      text makes `trim` throw; otherwise the block's keys. */
  datatype Outcome = NotCode | TypeError | Block(fields: map<string, string>)

  const LanguagePrefix: string := "language-"

  /** `pat` occurs in `s` at index `k`. */
  predicate OccursAt(s: string, pat: string, k: int) {
    0 <= k && k + |pat| <= |s| && s[k..k + |pat|] == pat
  }

  /** `i` is the first index where `pat` occurs in `s`. */
  predicate FirstOccurrence(s: string, pat: string, i: int) {
    OccursAt(s, pat, i) && forall k :: 0 <= k < i ==> !OccursAt(s, pat, k)
  }

  /** The first index at or after `from` where `pat` occurs in `s`. */
  function FindFrom(s: string, pat: string, from: nat): (r: Option<nat>)
    requires from <= |s|
    ensures r.Some? ==> from <= r.value && OccursAt(s, pat, r.value)
    ensures forall k :: from <= k && OccursAt(s, pat, k) ==> r.Some? && r.value <= k
    decreases |s| - from
  {
    if from + |pat| > |s| then None
    else if s[from..from + |pat|] == pat then Some(from)
    else FindFrom(s, pat, from + 1)
  }

  /** The longest prefix without a line terminator: what `.*` matches. */
  function TakeLine(s: string): (r: string)
    ensures r <= s
    ensures forall k :: 0 <= k < |r| ==> !IsLineTerminator(r[k])
    ensures |r| < |s| ==> IsLineTerminator(s[|r|])
  {
    if s == [] || IsLineTerminator(s[0]) then [] else [s[0]] + TakeLine(s[1..])
  }

  /** The `lang` group of `/language-(?<lang>.*)/` matched against the
      class, or `""` when there is no match (or the group is empty). */
  function Language(className: string): string {
    match FindFrom(className, LanguagePrefix, 0)
    case None => ""
    case Some(i) => TakeLine(className[i + |LanguagePrefix|..])
  }

  /** `preToCodeBlock`. The computed keys come first and the remaining
      child props (all but `children` and `className`) are spread after
      them, so a remaining prop of the same name wins. */
  function PreToCodeBlock(pre: PreProps): Outcome {
    if pre.children.None? || pre.children.value.props.None? then NotCode
    else
      var props := pre.children.value.props.value;
      if "mdxType" !in props || props["mdxType"] != "code" then NotCode
      else if "children" !in props then TypeError
      else
        var className := if "className" in props then props["className"] else "";
        var computed := map["codeString" := Trim(props["children"]), "className" := className,
                             "language" := Language(className)];
        Block(computed + (props - {"children", "className"}))
  }

  /** The shape of the result: nothing unless the child is a code element;
      a missing class counts as `""`; the code is the trimmed child text;
      the remaining props override the computed keys, and only the computed
      keys and the remaining props appear. */
  lemma PreToCodeBlockSpec(pre: PreProps)
    ensures var out := PreToCodeBlock(pre);
      && (out.NotCode? <==> (pre.children.None? || pre.children.value.props.None?
                             || "mdxType" !in pre.children.value.props.value
                             || pre.children.value.props.value["mdxType"] != "code"))
      && (out.TypeError? <==> !out.NotCode? && "children" !in pre.children.value.props.value)
      && (out.Block? ==>
        var props := pre.children.value.props.value;
        var className := if "className" in props then props["className"] else "";
        var rest := props - {"children", "className"};
        && out.fields.Keys == rest.Keys + {"codeString", "className", "language"}
        && (forall k :: k in rest ==> out.fields[k] == rest[k])
        && ("codeString" !in rest ==> out.fields["codeString"] == Trim(props["children"]))
        && ("className" !in rest ==> out.fields["className"] == className)
        && ("language" !in rest ==> out.fields["language"] == Language(className))
        && out.fields["mdxType"] == "code")
  {
  }

  /** A class `language-L` names the language `L`, for any `L` on one line. */
  lemma LanguageOfClass(lang: string)
    requires forall k :: 0 <= k < |lang| ==> !IsLineTerminator(lang[k])
    ensures Language(LanguagePrefix + lang) == lang
  {
    var s := LanguagePrefix + lang;
    assert OccursAt(s, LanguagePrefix, 0);
    assert s[|LanguagePrefix|..] == lang;
    TakeLineWhole(lang);
  }

  lemma {:induction false} TakeLineWhole(s: string)
    requires forall k :: 0 <= k < |s| ==> !IsLineTerminator(s[k])
    ensures TakeLine(s) == s
  {
    if s != [] {
      TakeLineWhole(s[1..]);
      assert s == [s[0]] + s[1..];
    }
  }

  /** The language is the text following the first `language-` of the
      class, up to the end of its line, and `""` when there is none. */
  lemma LanguageSpec(className: string)
    ensures (forall k :: !OccursAt(className, LanguagePrefix, k)) ==> Language(className) == ""
    ensures forall i :: 0 <= i && i + |LanguagePrefix| <= |className| && FirstOccurrence(className, LanguagePrefix, i) ==>
      Language(className) == TakeLine(className[i + |LanguagePrefix|..])
  {
    var r := FindFrom(className, LanguagePrefix, 0);
    forall i | 0 <= i && i + |LanguagePrefix| <= |className| && FirstOccurrence(className, LanguagePrefix, i)
      ensures r == Some(i)
    {
      assert r.Some? && r.value <= i && OccursAt(className, LanguagePrefix, r.value);
    }
  }

  /** The code shown and copied is already trimmed: trimming it again changes nothing. */
  lemma CodeStringTrimmed(pre: PreProps)
    requires PreToCodeBlock(pre).Block?
    requires "codeString" !in pre.children.value.props.value
    ensures var code := PreToCodeBlock(pre).fields["codeString"];
      Trim(code) == code
  {
    TrimIdempotent(pre.children.value.props.value["children"]);
  }

  // ---------------------------------------------------------------------------
  // The Copy button

  /** The button's state: the `hasCopied` flag, the reset timers scheduled
      and not yet fired, and the texts written to the clipboard so far. */
  class CopyButton {
    const toCopy: string
    var hasCopied: bool
    var pendingResets: nat
    var clipboard: seq<string>

    /** At most one reset is pending, and one is exactly while the flag is set. */
    ghost predicate Valid()
      reads this
    {
      pendingResets <= 1 && (hasCopied <==> pendingResets == 1)
    }

    constructor(toCopy: string)
      ensures Valid()
      ensures this.toCopy == toCopy && !hasCopied && pendingResets == 0 && clipboard == []
    {
      this.toCopy := toCopy;
      hasCopied := false;
      pendingResets := 0;
      clipboard := [];
    }

    /** The text next to the icon. */
    function Label(): (s: string)
      reads this
      ensures s == "Copied" <==> hasCopied
      ensures s == "Copy" <==> !hasCopied
    {
      if hasCopied then "Copied" else "Copy"
    }

    /** `copyToClipboardOnClick`: nothing while the flag is set; otherwise
      the text goes to the clipboard, the flag is set and a reset is scheduled. */
    method Click()
      requires Valid()
      modifies this
      ensures Valid()
      ensures old(hasCopied) ==> hasCopied && pendingResets == old(pendingResets) && clipboard == old(clipboard)
      ensures !old(hasCopied) ==> hasCopied && pendingResets == 1 && clipboard == old(clipboard) + [toCopy]
    {
      if hasCopied {
        return;
      }
      CopyToClipboard();
      hasCopied := true;
      pendingResets := pendingResets + 1;
    }

    /** `copyToClipboard`: the text is written to the clipboard. */
    method CopyToClipboard()
      modifies this
      ensures clipboard == old(clipboard) + [toCopy]
      ensures hasCopied == old(hasCopied) && pendingResets == old(pendingResets)
    {
      clipboard := clipboard + [toCopy];
    }

    /** The scheduled reset fires two seconds later and clears the flag. */
    method ResetFires()
      requires Valid() && pendingResets > 0
      modifies this
      ensures Valid()
      ensures !hasCopied && pendingResets == 0 && clipboard == old(clipboard)
    {
      hasCopied := false;
      pendingResets := pendingResets - 1;
    }
  }
}
