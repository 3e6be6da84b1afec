/** Class-name classification of DOM nodes by the host's class-name prefixes. */
module Classify {
  import opened Wrappers

  /** Prefix of the class name of a folder wrapper. */
  const WrapperPrefix: string := "wrapper-"

  /** Prefix of the class name of a list item inside a folder. */
  const ListItemPrefix: string := "listItem-"

  /** A class name that is `None` is not a string (an SVG element's `className`, or a text node's). */
  predicate IsWrapperClass(className: Option<string>)
  {
    className.Some? && WrapperPrefix <= className.value
  }

  predicate IsListClass(className: Option<string>)
  {
    className.Some? && ListItemPrefix <= className.value
  }

  /** No class name is both a wrapper's and a list item's. */
  lemma ClassesExclusive(className: Option<string>)
    ensures !(IsWrapperClass(className) && IsListClass(className))
  {
    if IsWrapperClass(className) {
      assert className.value[0] == WrapperPrefix[0] != ListItemPrefix[0];
    }
  }

  /** A class name that is not a string is neither. */
  lemma NonStringIsNeither()
    ensures !IsWrapperClass(None) && !IsListClass(None)
  {
  }

  /** Prefix matching is exact: the dash is part of the prefix. */
  lemma PrefixExamples()
    ensures IsWrapperClass(Some("wrapper-abc123"))
    ensures !IsWrapperClass(Some("wrapperabc"))
    ensures !IsWrapperClass(Some("xwrapper-abc"))
    ensures IsListClass(Some("listItem-3x"))
    ensures !IsListClass(Some("listitem-3x"))
  {
    assert "wrapper-abc123"[..8] == WrapperPrefix;
    assert "listItem-3x"[..9] == ListItemPrefix;
    assert "wrapperabc"[7] != WrapperPrefix[7];
    assert "xwrapper-abc"[0] != WrapperPrefix[0];
    assert "listitem-3x"[4] != ListItemPrefix[4];
  }
}
