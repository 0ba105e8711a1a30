/** How `getTranslations` names and collects a plugin's locale files. */
module Locales {
  import opened Host
  import opened JsStrings

  /** The key used when a file name yields no locale token (spelled as the
      loader spells it). */
  const FallbackLocale := "unknow"

  /** `localeFile.split("/").at(-1)?.split(".")[0] || "unknow"`: the text of
      the last `/`-separated segment before its first `.`, or the fallback
      when that text is empty. */
  function LocaleKey(localeFile: string): (key: string)
    ensures key != ""
    ensures forall k :: 0 <= k < |key| ==> key[k] != '/' && key[k] != '.'
  {
    var segment := LastPiece(localeFile, '/');
    var token := FirstPiece(segment, '.');
    FirstPieceIsBeforeFirst(segment, '.');
    assert token <= segment;
    if token == "" then FallbackLocale else token
  }

  /** The same key by positions: the segment starts after the last `/`, and
      the token ends at the first `.` of that segment. A derived token never
      contains `/` or `.`. */
  lemma LocaleKeyByPosition(localeFile: string)
    ensures var segment := localeFile[LastIndexOf(localeFile, '/') + 1..];
      var token := segment[..IndexOf(segment, '.')];
      && LocaleKey(localeFile) == (if token == "" then FallbackLocale else token)
      && '/' !in token && '.' !in token
  {
    LastPieceIsAfterLast(localeFile, '/');
    FirstPieceIsBeforeFirst(LastPiece(localeFile, '/'), '.');
  }

  /** The table `getTranslations` builds from the locale files in order:
      each file is stored under its key, a later file overwriting an
      earlier one with the same key. Nothing is stored under the empty key,
      which the fallback replaces; TranslationKeys and LastFileWins give
      the whole table. */
  function TranslationsOf(localeFiles: seq<string>, load: string -> Resource): (table: map<string, Resource>)
    ensures "" !in table
  {
    if localeFiles == [] then map[]
    else
      var last := localeFiles[|localeFiles| - 1];
      TranslationsOf(localeFiles[..|localeFiles| - 1], load)[LocaleKey(last) := load(last)]
  }

  /** The keys of the table are exactly the keys of the files. */
  lemma {:induction false} TranslationKeys(localeFiles: seq<string>, load: string -> Resource, key: string)
    ensures key in TranslationsOf(localeFiles, load) <==>
      exists i :: 0 <= i < |localeFiles| && LocaleKey(localeFiles[i]) == key
  {
    if localeFiles == [] {
      assert TranslationsOf(localeFiles, load) == map[];
    } else {
      var n := |localeFiles| - 1;
      TranslationKeys(localeFiles[..n], load, key);
      TranslationKeysStep(localeFiles, load, key);
    }
  }

  /** One step of TranslationKeys: from all files but the last to all files. */
  lemma {:induction false} TranslationKeysStep(localeFiles: seq<string>, load: string -> Resource, key: string)
    requires localeFiles != []
    requires var init := localeFiles[..|localeFiles| - 1];
      key in TranslationsOf(init, load) <==> exists i :: 0 <= i < |init| && LocaleKey(init[i]) == key
    ensures key in TranslationsOf(localeFiles, load) <==>
      exists i :: 0 <= i < |localeFiles| && LocaleKey(localeFiles[i]) == key
  {
    var n := |localeFiles| - 1;
    var init := localeFiles[..n];
    var lastKey := LocaleKey(localeFiles[n]);
    assert TranslationsOf(localeFiles, load).Keys == TranslationsOf(init, load).Keys + {lastKey};
    if key == lastKey {
      assert 0 <= n < |localeFiles| && LocaleKey(localeFiles[n]) == key;
    } else if key in TranslationsOf(init, load) {
      KeyFromPrefix(localeFiles, n, key);
    } else {
      forall i | 0 <= i < |localeFiles| ensures LocaleKey(localeFiles[i]) != key {
        if i < n {
          assert init[i] == localeFiles[i];
        }
      }
    }
  }

  /** A key of some file among the first `n` is the key of a file. */
  lemma KeyFromPrefix(localeFiles: seq<string>, n: nat, key: string)
    requires n <= |localeFiles|
    requires exists i :: 0 <= i < |localeFiles[..n]| && LocaleKey(localeFiles[..n][i]) == key
    ensures exists i :: 0 <= i < |localeFiles| && LocaleKey(localeFiles[i]) == key
  {
    var i :| 0 <= i < |localeFiles[..n]| && LocaleKey(localeFiles[..n][i]) == key;
    assert localeFiles[..n][i] == localeFiles[i];
  }

  /** A file's table is the one stored under its key when no later file
      has the same key: the last file with a key wins. */
  lemma {:induction false} LastFileWins(localeFiles: seq<string>, load: string -> Resource, i: nat)
    requires i < |localeFiles|
    requires forall j :: i < j < |localeFiles| ==> LocaleKey(localeFiles[j]) != LocaleKey(localeFiles[i])
    ensures LocaleKey(localeFiles[i]) in TranslationsOf(localeFiles, load)
    ensures TranslationsOf(localeFiles, load)[LocaleKey(localeFiles[i])] == load(localeFiles[i])
  {
    var n := |localeFiles| - 1;
    if i < n {
      var init := localeFiles[..n];
      assert init[i] == localeFiles[i];
      forall j | i < j < |init| ensures LocaleKey(init[j]) != LocaleKey(init[i]) {
        assert init[j] == localeFiles[j];
      }
      LastFileWins(init, load, i);
    }
  }
}
