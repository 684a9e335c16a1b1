/**
 * The language settings of openshot_qt/classes/info.py: the URL prefix of
 * the website for the current language (lines 76-85) and the list of
 * supported languages built from the translation files (lines 56-73).
 * The current language and the translation directory's entry list are
 * parameters.
 */
module Info {
  import opened Text

  /** `CURRENT_LANGUAGE`'s default, and the first supported language. */
  const DefaultLanguage: string := "en_US"

  /** `website_language()` for the language code `current`. */
  function WebsiteLanguage(current: string): string {
    if current == "zh_CN" then "zh-hans/"
    else if current == "zh_TW" then "zh-hant/"
    else if current == "en_US" then ""
    else Lower(Split(current, '_')[0]) + "/"
  }

  /** The first piece of a split is everything before the first separator. */
  lemma SplitHead(s: string, sep: char)
    ensures Split(s, sep)[0] == s[..IndexOf(s, sep)]
  {
  }

  /** Lower-casing never produces an underscore from anything else. */
  lemma LowerKeepsUnderscoresOut(s: string)
    requires '_' !in s
    ensures '_' !in Lower(s)
  {
    forall k | 0 <= k < |s| ensures Lower(s)[k] != '_' {
      assert s[k] != '_';
    }
  }

  /**
   * The two Chinese variants get their own prefixes and English none; any
   * other code gives the lower-cased text before its first '_', then '/'.
   */
  lemma WebsiteLanguageCases(current: string)
    ensures current == "zh_CN" ==> WebsiteLanguage(current) == "zh-hans/"
    ensures current == "zh_TW" ==> WebsiteLanguage(current) == "zh-hant/"
    ensures current == "en_US" ==> WebsiteLanguage(current) == ""
    ensures current != "zh_CN" && current != "zh_TW" && current != "en_US" ==>
      WebsiteLanguage(current) == Lower(current[..IndexOf(current, '_')]) + "/"
  {
    SplitHead(current, '_');
  }

  /**
   * Only English maps to the empty prefix; every other prefix ends in '/'
   * and keeps no '_'.
   */
  lemma WebsiteLanguageShape(current: string)
    ensures WebsiteLanguage(current) == "" <==> current == DefaultLanguage
    ensures current != DefaultLanguage ==>
      var r := WebsiteLanguage(current);
      EndsWith(r, "/") && '_' !in r
  {
    var r := WebsiteLanguage(current);
    if current != "zh_CN" && current != "zh_TW" && current != "en_US" {
      var head := Split(current, '_')[0];
      LowerKeepsUnderscoresOut(head);
      assert r == Lower(head) + "/";
      assert r[|r| - 1..] == "/";
      assert r[..|r| - 1] == Lower(head);
      assert '_' !in r by {
        forall k | 0 <= k < |r| ensures r[k] != '_' {
          if k < |r| - 1 {
            assert r[k] == r[..|r| - 1][k];
          }
        }
      }
    }
  }

  /** Codes that agree up to their first '_', apart from the special ones, share a website prefix. */
  lemma RegionDoesNotMatter(a: string, b: string)
    requires a != "zh_CN" && a != "zh_TW" && a != "en_US"
    requires b != "zh_CN" && b != "zh_TW" && b != "en_US"
    requires a[..IndexOf(a, '_')] == b[..IndexOf(b, '_')]
    ensures WebsiteLanguage(a) == WebsiteLanguage(b)
  {
    SplitHead(a, '_');
    SplitHead(b, '_');
  }

  const QmPrefix: string := "OpenShot_"
  const QmSuffix: string := ".qm"

  /** A name the filter `OpenShot_*.qm` lets through. */
  predicate QmName(name: string) {
    |name| >= |QmPrefix| + |QmSuffix| && StartsWith(name, QmPrefix) && EndsWith(name, QmSuffix)
  }

  /** `trpath.split('.')[1]`: a matching name always has a '.', so the index exists. */
  function LanguageField(name: string): (field: string)
    requires QmName(name)
    ensures |Split(name, '.')| >= 2 && field == Split(name, '.')[1]
    ensures '.' !in field
  {
    assert name[|name| - 3] == '.';
    assert '.' in JoinWith(Split(name, '.'), '.');
    if |Split(name, '.')| < 2 then
      assert false;
      ""
    else Split(name, '.')[1]
  }

  /** `SUPPORTED_LANGUAGES` after the loop over the entry list `langs`. */
  function SupportedLanguages(langs: seq<string>): seq<string>
    requires forall k :: 0 <= k < |langs| ==> QmName(langs[k])
  {
    [DefaultLanguage] + seq(|langs|, k requires 0 <= k < |langs| => LanguageField(langs[k]))
  }

  /**
   * The loop of lines 72-73 appending to `SUPPORTED_LANGUAGES`, which starts
   * as `['en_US']` (line 58). `langs` is what `entryList` returns: the names
   * matching `OpenShot_*.qm`, in name order. English comes first, then one
   * entry per listed name, in listing order.
   */
  method BuildSupportedLanguages(langs: seq<string>) returns (supported: seq<string>)
    requires forall k :: 0 <= k < |langs| ==> QmName(langs[k])
    ensures supported == SupportedLanguages(langs)
    ensures |supported| == |langs| + 1 && supported[0] == DefaultLanguage
    ensures forall k :: 0 <= k < |langs| ==> supported[k + 1] == LanguageField(langs[k])
  {
    supported := [DefaultLanguage];
    for i := 0 to |langs|
      invariant supported == SupportedLanguages(langs[..i])
    {
      assert langs[..i + 1][..i] == langs[..i];
      supported := supported + [LanguageField(langs[i])];
    }
    assert langs[..|langs|] == langs;
  }

  /** As written: a name `OpenShot_<code>.qm` whose code has no '.' contributes the extension "qm", not the code. */
  lemma AsWrittenFieldIsExtension(code: string)
    requires '.' !in code
    ensures QmName(QmPrefix + code + QmSuffix)
    ensures LanguageField(QmPrefix + code + QmSuffix) == "qm"
  {
    var name := QmPrefix + code + QmSuffix;
    assert name[..|QmPrefix|] == QmPrefix;
    assert name[|name| - |QmSuffix|..] == QmSuffix;
    var pieces := ["OpenShot_" + code, "qm"];
    assert JoinWith(pieces, '.') == name by {
      assert JoinWith(pieces[1..], '.') == "qm";
    }
    assert '.' !in "OpenShot_" + code by {
      forall k | 0 <= k < |"OpenShot_" + code| ensures ("OpenShot_" + code)[k] != '.' {
        if k >= 9 {
          assert ("OpenShot_" + code)[k] == code[k - 9];
        }
      }
    }
    SplitJoinWith(pieces, '.');
  }

  /**
   * So a translation directory holding `OpenShot_<c>.qm` for codes `c`
   * without a '.' (such as `de` and `fr`) makes the list `['en_US', 'qm',
   * 'qm', ...]`: one "qm" per file, and no language code at all.
   */
  lemma AsWrittenListRepeatsExtension(langs: seq<string>, codes: seq<string>)
    requires |langs| == |codes|
    requires forall k :: 0 <= k < |codes| ==> '.' !in codes[k] && langs[k] == QmPrefix + codes[k] + QmSuffix
    ensures forall k :: 0 <= k < |langs| ==> QmName(langs[k])
    ensures var r := SupportedLanguages(langs);
      |r| == |langs| + 1 && r[0] == DefaultLanguage && forall k :: 1 <= k < |r| ==> r[k] == "qm"
  {
    forall k | 0 <= k < |langs| ensures QmName(langs[k]) && LanguageField(langs[k]) == "qm" {
      AsWrittenFieldIsExtension(codes[k]);
    }
    var r := SupportedLanguages(langs);
    forall k | 1 <= k < |r| ensures r[k] == "qm" {
      assert r[k] == LanguageField(langs[k - 1]);
    }
  }

  /** The language code a translation file is named for: the text between `OpenShot_` and `.qm`. */
  function LanguageCode(name: string): (code: string)
    requires QmName(name)
    ensures QmPrefix + code + QmSuffix == name
  {
    var code := name[|QmPrefix|..|name| - |QmSuffix|];
    assert name == name[..|QmPrefix|] + code + name[|name| - |QmSuffix|..];
    code
  }

  /** `SUPPORTED_LANGUAGES` as evidently intended: English, then each file's language code. */
  function IntendedSupportedLanguages(langs: seq<string>): seq<string>
    requires forall k :: 0 <= k < |langs| ==> QmName(langs[k])
  {
    [DefaultLanguage] + seq(|langs|, k requires 0 <= k < |langs| => LanguageCode(langs[k]))
  }

  /**
   * The intended list names every file's code: the file `OpenShot_<c>.qm`
   * gives `c`, in listing order, and distinct files give distinct codes.
   */
  lemma IntendedLanguagesRoundTrip(langs: seq<string>)
    requires forall k :: 0 <= k < |langs| ==> QmName(langs[k])
    ensures var s := IntendedSupportedLanguages(langs);
      && |s| == |langs| + 1 && s[0] == DefaultLanguage
      && (forall k :: 0 <= k < |langs| ==> QmPrefix + s[k + 1] + QmSuffix == langs[k])
      && (forall i, j :: 0 <= i < j < |langs| && langs[i] != langs[j] ==> s[i + 1] != s[j + 1])
  {
    var s := IntendedSupportedLanguages(langs);
    forall k | 0 <= k < |langs| ensures QmPrefix + s[k + 1] + QmSuffix == langs[k] {
      assert s[k + 1] == LanguageCode(langs[k]);
    }
  }

  /** Reading the code back from the name of its own file gives the code. */
  lemma LanguageCodeOfName(code: string)
    ensures QmName(QmPrefix + code + QmSuffix)
    ensures LanguageCode(QmPrefix + code + QmSuffix) == code
  {
    var name := QmPrefix + code + QmSuffix;
    assert name[..|QmPrefix|] == QmPrefix;
    assert name[|name| - |QmSuffix|..] == QmSuffix;
    assert name[|QmPrefix|..|name| - |QmSuffix|] == code;
  }
}
