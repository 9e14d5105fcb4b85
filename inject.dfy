/**
 * The page rewrites that publish the environment to the web pages: the
 * three `str.replace` calls of `inject_env` (scripts/inject_env.py:36-39)
 * and the single one of `inject_environment_into_html` (main.py:315).
 * Reading and writing the page files is left out; a page is its text.
 */
module Inject {
  import opened Common
  import opened Text
  import Env

  const Placeholder := "{{ env }}"
  const DevelopmentMeta := "content=\"development\""
  const ProductionMeta := "content=\"production\""
  const PlaceholderMeta := "content=\"{{ env }}\""
  /** The text every meta value above starts with. */
  const MetaOpen := "content=\""

  /** Text that holds none of the three patterns the rewrites look for. */
  predicate Clean(s: string) {
    !Contains(s, DevelopmentMeta) && !Contains(s, ProductionMeta) && !Contains(s, Placeholder)
  }

  /** `inject_environment_into_html`: the placeholder to `env`, and nothing else. */
  function InjectPlaceholder(page: string, env: string): (r: string)
    ensures !Contains(page, Placeholder) ==> r == page
  {
    assert !Contains(page, Placeholder) ==> ReplaceAll(page, Placeholder, env) == page by {
      if !Contains(page, Placeholder) {
        ReplaceWithoutMatch(page, Placeholder, env);
      }
    }
    ReplaceAll(page, Placeholder, env)
  }

  /**
   * `inject_env`: known environments back to the placeholder, then the
   * placeholder to `env`. A page without a known meta value gets the same
   * rewrite as in `main`, and a page without any of the patterns is kept.
   */
  function InjectEnv(page: string, env: string): (r: string)
    ensures !Contains(page, DevelopmentMeta) && !Contains(page, ProductionMeta) ==> r == InjectPlaceholder(page, env)
    ensures Clean(page) ==> r == page
  {
    var tagged := ReplaceAll(page, DevelopmentMeta, PlaceholderMeta);
    var retagged := ReplaceAll(tagged, ProductionMeta, PlaceholderMeta);
    assert !Contains(page, DevelopmentMeta) && !Contains(page, ProductionMeta) ==> retagged == page by {
      if !Contains(page, DevelopmentMeta) && !Contains(page, ProductionMeta) {
        ReplaceWithoutMatch(page, DevelopmentMeta, PlaceholderMeta);
        ReplaceWithoutMatch(page, ProductionMeta, PlaceholderMeta);
      }
    }
    ReplaceAll(retagged, Placeholder, env)
  }

  // ---------------------------------------------------------------------
  // Where an occurrence can lie

  /**
   * The characters that tell the patterns apart: `c` starts every meta
   * value and occurs in no other place of them but inside `production`,
   * and the placeholder holds no `c`.
   */
  lemma MetaChars()
    ensures |DevelopmentMeta| == 21 && |ProductionMeta| == 20 && |PlaceholderMeta| == 19 && |Placeholder| == 9
    ensures DevelopmentMeta[0] == 'c' && DevelopmentMeta[1] == 'o' && DevelopmentMeta[9] == 'd'
    ensures ProductionMeta[0] == 'c' && ProductionMeta[1] == 'o' && ProductionMeta[9] == 'p'
    ensures ProductionMeta[14] == 'c' && ProductionMeta[15] == 't'
    ensures PlaceholderMeta[0] == 'c' && PlaceholderMeta[1] == 'o' && PlaceholderMeta[9] == '{' && PlaceholderMeta[11] == ' '
    ensures Placeholder[0] == '{' && Placeholder[1] == '{'
    ensures forall j :: 0 < j < |DevelopmentMeta| ==> DevelopmentMeta[j] != 'c'
    ensures forall j :: 0 < j < |ProductionMeta| && j != 14 ==> ProductionMeta[j] != 'c'
    ensures forall j :: 0 < j < |PlaceholderMeta| ==> PlaceholderMeta[j] != 'c'
    ensures forall j :: 0 <= j < |Placeholder| ==> Placeholder[j] != 'c'
    ensures forall j :: 0 <= j < |PlaceholderMeta| && j != 9 && j != 10 ==> PlaceholderMeta[j] != '{'
    ensures PlaceholderMeta == MetaOpen + Placeholder + "\""
    ensures DevelopmentMeta == MetaOpen + Env.Development + "\""
  {
  }

  /** A character of an occurrence is the pattern's character at that offset. */
  lemma CharAt(s: string, pat: string, i: int, j: int)
    requires 0 <= j < |pat|
    ensures MatchAt(s, pat, i) ==> s[i + j] == pat[j]
  {
    if MatchAt(s, pat, i) {
      MatchChar(s, pat, i, j);
    }
  }

  /**
   * In `pre + m + post`, where neither `pre` nor `post` holds `pat`, an
   * occurrence of `pat` overlaps `m`: it covers `m`'s first character, or
   * it starts inside `m`.
   */
  lemma Overlapping(pre: string, m: string, post: string, pat: string, i: int)
    requires |m| > 0 && |pat| > 0 && !Contains(pre, pat) && !Contains(post, pat)
    ensures MatchAt(pre + m + post, pat, i) ==>
      || (i <= |pre| < i + |pat| && pat[|pre| - i] == m[0])
      || (|pre| < i < |pre| + |m| && pat[0] == m[i - |pre|])
  {
    var s := pre + m + post;
    if 0 <= i && i + |pat| <= |s| {
      if i + |pat| <= |pre| {
        assert s[i..i + |pat|] == pre[i..i + |pat|];
        assert !MatchAt(pre, pat, i);
      } else if i >= |pre| + |m| {
        var j := i - |pre| - |m|;
        assert s[i..i + |pat|] == post[j..j + |pat|];
        assert !MatchAt(post, pat, j);
      } else if i <= |pre| {
        assert s[|pre|] == m[0];
        CharAt(s, pat, i, |pre| - i);
      } else {
        assert s[i] == m[i - |pre|];
        CharAt(s, pat, i, 0);
      }
    }
  }

  // ---------------------------------------------------------------------
  // The three replacements on a page with one meta value

  /** `content="development"` occurs in such a page only as its meta value. */
  lemma NoDevelopmentAt(pre: string, meta: string, post: string, i: int)
    requires meta == DevelopmentMeta || meta == ProductionMeta || meta == PlaceholderMeta
    requires Clean(pre) && Clean(post)
    requires meta != DevelopmentMeta || i != |pre|
    ensures !MatchAt(pre + meta + post, DevelopmentMeta, i)
  {
    MetaChars();
    var s := pre + meta + post;
    var k := |pre|;
    Overlapping(pre, meta, post, DevelopmentMeta, i);
    if i == k {
      assert s[k + 9] == meta[9];
      CharAt(s, DevelopmentMeta, i, 9);
    } else if i == k + 14 && meta == ProductionMeta {
      assert s[k + 15] == meta[15];
      CharAt(s, DevelopmentMeta, i, 1);
    }
  }

  /** The first replacement turns `content="development"` into the placeholder value and touches nothing else. */
  lemma UntagDevelopment(pre: string, meta: string, post: string)
    requires meta == DevelopmentMeta || meta == ProductionMeta || meta == PlaceholderMeta
    requires Clean(pre) && Clean(post)
    ensures ReplaceAll(pre + meta + post, DevelopmentMeta, PlaceholderMeta) ==
      pre + (if meta == DevelopmentMeta then PlaceholderMeta else meta) + post
  {
    var s := pre + meta + post;
    var k := |pre|;
    forall i | 0 <= i <= |s| && (meta != DevelopmentMeta || i != k) ensures !MatchAt(s, DevelopmentMeta, i) {
      NoDevelopmentAt(pre, meta, post, i);
    }
    MetaChars();
    if meta == DevelopmentMeta {
      assert s[k..k + |meta|] == meta;
      ReplaceOnlyAt(s, DevelopmentMeta, PlaceholderMeta, k);
      assert s[..k] == pre && s[k + |meta|..] == post;
    } else {
      ReplaceWithoutMatch(s, DevelopmentMeta, PlaceholderMeta);
    }
  }

  /** `content="production"` occurs in such a page only as its meta value. */
  lemma NoProductionAt(pre: string, meta: string, post: string, i: int)
    requires meta == ProductionMeta || meta == PlaceholderMeta
    requires Clean(pre) && Clean(post)
    requires meta != ProductionMeta || i != |pre|
    ensures !MatchAt(pre + meta + post, ProductionMeta, i)
  {
    MetaChars();
    var s := pre + meta + post;
    var k := |pre|;
    Overlapping(pre, meta, post, ProductionMeta, i);
    if i == k {
      assert s[k + 9] == meta[9];
      CharAt(s, ProductionMeta, i, 9);
    } else if i + 14 == k {
      assert s[k + 1] == meta[1];
      CharAt(s, ProductionMeta, i, 15);
    } else if i == k + 14 && meta == ProductionMeta {
      assert s[k + 15] == meta[15];
      CharAt(s, ProductionMeta, i, 1);
    }
  }

  /** The second replacement turns `content="production"` into the placeholder value and touches nothing else. */
  lemma RetagProduction(pre: string, meta: string, post: string)
    requires meta == ProductionMeta || meta == PlaceholderMeta
    requires Clean(pre) && Clean(post)
    ensures ReplaceAll(pre + meta + post, ProductionMeta, PlaceholderMeta) == pre + PlaceholderMeta + post
  {
    var s := pre + meta + post;
    var k := |pre|;
    forall i | 0 <= i <= |s| && (meta != ProductionMeta || i != k) ensures !MatchAt(s, ProductionMeta, i) {
      NoProductionAt(pre, meta, post, i);
    }
    MetaChars();
    if meta == ProductionMeta {
      assert s[k..k + |meta|] == meta;
      ReplaceOnlyAt(s, ProductionMeta, PlaceholderMeta, k);
      assert s[..k] == pre && s[k + |meta|..] == post;
    } else {
      ReplaceWithoutMatch(s, ProductionMeta, PlaceholderMeta);
    }
  }

  /** The placeholder occurs in the templated page only inside its meta value. */
  lemma NoPlaceholderAt(pre: string, post: string, i: int)
    requires Clean(pre) && Clean(post)
    requires i != |pre| + |MetaOpen|
    ensures !MatchAt(pre + PlaceholderMeta + post, Placeholder, i)
  {
    MetaChars();
    var s := pre + PlaceholderMeta + post;
    Overlapping(pre, PlaceholderMeta, post, Placeholder, i);
    if i == |pre| + 10 {
      assert s[|pre| + 11] == PlaceholderMeta[11];
      CharAt(s, Placeholder, i, 1);
    }
  }

  /** The last replacement: `content="{{ env }}"` becomes `content="<env>"`. */
  lemma FillPlaceholderMeta(pre: string, post: string, env: string)
    requires Clean(pre) && Clean(post)
    ensures ReplaceAll(pre + PlaceholderMeta + post, Placeholder, env) == pre + MetaOpen + env + "\"" + post
  {
    MetaChars();
    var s := pre + PlaceholderMeta + post;
    var k := |pre| + |MetaOpen|;
    forall i | 0 <= i <= |s| && i != k ensures !MatchAt(s, Placeholder, i) {
      NoPlaceholderAt(pre, post, i);
    }
    assert s == (pre + MetaOpen) + Placeholder + ("\"" + post);
    assert s[k..k + |Placeholder|] == Placeholder;
    ReplaceOnlyAt(s, Placeholder, env, k);
    assert s[..k] == pre + MetaOpen && s[k + |Placeholder|..] == "\"" + post;
    ConcatAssoc(pre + MetaOpen + env, "\"", post);
  }

  // ---------------------------------------------------------------------
  // Properties of the two rewrites

  /**
   * A page carrying `content="development"` or `content="production"`,
   * and none of the three patterns elsewhere, comes out carrying
   * `content="<env>"` instead: re-injecting switches a page from one
   * environment to another.
   */
  lemma Reinject(pre: string, meta: string, post: string, env: string)
    requires meta == DevelopmentMeta || meta == ProductionMeta
    requires Clean(pre) && Clean(post)
    ensures InjectEnv(pre + meta + post, env) == pre + MetaOpen + env + "\"" + post
  {
    UntagDevelopment(pre, meta, post);
    RetagProduction(pre, if meta == DevelopmentMeta then PlaceholderMeta else meta, post);
    FillPlaceholderMeta(pre, post, env);
  }

  /** A freshly templated page gets the environment just the same. */
  lemma InjectTemplate(pre: string, post: string, env: string)
    requires Clean(pre) && Clean(post)
    ensures InjectEnv(pre + PlaceholderMeta + post, env) == pre + MetaOpen + env + "\"" + post
  {
    UntagDevelopment(pre, PlaceholderMeta, post);
    RetagProduction(pre, PlaceholderMeta, post);
    FillPlaceholderMeta(pre, post, env);
  }

  /** With the environment unset, a templated page becomes the development page. */
  lemma TemplateDefaultsToDevelopment(pre: string, post: string)
    requires Clean(pre) && Clean(post)
    ensures InjectEnv(pre + PlaceholderMeta + post, Env.BlizzardEnv(None)) == pre + DevelopmentMeta + post
  {
    InjectTemplate(pre, post, Env.Development);
    MetaChars();
    assert pre + MetaOpen + Env.Development + "\"" + post == pre + (MetaOpen + Env.Development + "\"") + post;
  }

  /**
   * The first placeholder is replaced by `env`, the text before it is kept,
   * and the rewrite carries on after it; so every placeholder of the page
   * is replaced, left to right.
   */
  lemma PlaceholderLeftmost(pre: string, post: string, env: string)
    requires !Contains(pre + Placeholder[..|Placeholder| - 1], Placeholder)
    ensures InjectPlaceholder(pre + Placeholder + post, env) == pre + env + InjectPlaceholder(post, env)
  {
    var s := pre + Placeholder + post;
    assert s[|pre|..|pre| + |Placeholder|] == Placeholder;
    var t := pre + Placeholder[..|Placeholder| - 1];
    forall i | 0 <= i < |pre| ensures !MatchAt(s, Placeholder, i) {
      // an occurrence starting in `pre` ends before the placeholder's last character
      assert s[i..i + |Placeholder|] == t[i..i + |Placeholder|];
      assert !MatchAt(t, Placeholder, i);
    }
    ReplaceLeftmost(s, Placeholder, env, |pre|);
    assert s[..|pre|] == pre;
    assert s[|pre| + |Placeholder|..] == post;
  }
}
