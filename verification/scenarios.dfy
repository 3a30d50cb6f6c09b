/**
 * Concrete scenarios: the precise checker's normalizer on the kinds of input
 * users send (a handle with `@`, junk, a profile URL).
 */
module Scenarios {
  import opened Common
  import opened Text
  import opened Precise

  lemma NormalizeAtExample(s: string)
    requires s == "@Foo.Bar"
    ensures Normalize(s) == "Foo.Bar"
  {
    StripTrimmed(s);
    assert !StartsWith(s, "http") by {
      assert s[0] != 'h';
    }
    NormalizeFilters(s);
    var t := s[1..];
    assert Filter(s) == Filter(t);
    assert t == "Foo.Bar";
    FilterKeepsHandles(t);
  }

  lemma NormalizeJunkExample(s: string)
    requires s == "!!!"
    ensures Normalize(s) == ""
  {
    FilterDropsJunk(s);
    NormalizeFilters(s);
  }

  lemma NormalizeUrlExample(s: string)
    requires s == "http://x/@carol"
    ensures Normalize(s) == "carol"
  {
    StripTrimmed(s);
    assert StartsWith(s, "http");
    UrlExampleSearch(s);
    UrlExampleRun(s);
    assert UrlHandle(s) == Some(s[10..15]);
    assert s[10..15] == "carol";
  }

  /** The first `/@` of the example sits after the host. */
  lemma UrlExampleSearch(s: string)
    requires s == "http://x/@carol"
    ensures SearchFrom(s, 0) == Some(8)
  {
    assert MarkerAt(s, 8);
    forall i | 0 <= i < 8 ensures !MarkerAt(s, i) {
      assert s[i + 1] != '@';
    }
    SearchFindsFirst(s, 0, 8);
  }

  /** The handle run after the marker is the rest of the string. */
  lemma UrlExampleRun(s: string)
    requires s == "http://x/@carol"
    ensures RunLength(s, 10) == 5
  {
    assert RunLength(s, 15) == 0;
    assert RunLength(s, 14) == 1;
    assert RunLength(s, 13) == 2;
    assert RunLength(s, 12) == 3;
    assert RunLength(s, 11) == 4;
  }

}
