/** Template enumeration: the `.xlsx` names of the template directory's
    listing, in listing order. */
module Templates {
  import opened Text

  const Extension := ".xlsx"

  predicate IsTemplateName(name: string) {
    EndsWith(name, Extension)
  }

  /** `[f for f in listing if f.endswith('.xlsx')]`. */
  function TemplateFiles(listing: seq<string>): (r: seq<string>)
    ensures |r| <= |listing|
    ensures forall f :: f in r <==> f in listing && IsTemplateName(f)
    decreases |listing|
  {
    if |listing| == 0 then []
    else
      assert forall f :: f in listing <==> f == listing[0] || f in listing[1..] by {
        assert listing == [listing[0]] + listing[1..];
      }
      (if IsTemplateName(listing[0]) then [listing[0]] else []) + TemplateFiles(listing[1..])
  }

  /** The filter keeps input order: filtering a concatenation concatenates
      the filtered parts. */
  lemma {:induction false} TemplateFilesAppend(a: seq<string>, b: seq<string>)
    ensures TemplateFiles(a + b) == TemplateFiles(a) + TemplateFiles(b)
    decreases |a|
  {
    if |a| > 0 {
      TemplateFilesAppend(a[1..], b);
      assert (a + b)[1..] == a[1..] + b;
    } else {
      assert a + b == b;
    }
  }

  /** Listing one more name appends it to the templates exactly when it ends
      in `.xlsx`: the filter looks at each name alone, in listing order. */
  lemma TemplateFilesSnoc(listing: seq<string>, f: string)
    ensures TemplateFiles(listing + [f]) == TemplateFiles(listing) + if IsTemplateName(f) then [f] else []
  {
    TemplateFilesAppend(listing, [f]);
    assert [f][1..] == [];
  }

  /** A listing made only of templates is kept whole. */
  lemma {:induction false} TemplateFilesKeepsAll(listing: seq<string>)
    requires forall i :: 0 <= i < |listing| ==> IsTemplateName(listing[i])
    ensures TemplateFiles(listing) == listing
    decreases |listing|
  {
    if |listing| > 0 {
      TemplateFilesKeepsAll(listing[1..]);
      assert listing == [listing[0]] + listing[1..];
    }
  }
}
