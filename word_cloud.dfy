/** The parts of `generate_wordcloud` in make_cloudword.py that decide
    whether a picture is produced and where it goes: the empty-text guard,
    the output file name and the output path. Rendering and saving are not
    modelled; whether they raised is the parameter `rendered`. */
module WordCloud {
  import opened Text
  import opened Paths

  const DefaultPrefix: string := "user_wordcloud_"
  const PngSuffix: string := ".png"

  /** The file name after the default and the suffix rule: no name (or an
      empty one) becomes `user_wordcloud_<timestamp>.png`, and '.png' is
      appended unless the name already ends with it. */
  function FinalFilename(requested: Option<string>, timestamp: string): string {
    var name := if requested.None? || requested.value == "" then DefaultPrefix + timestamp + PngSuffix else requested.value;
    if EndsWith(name, PngSuffix) then name else name + PngSuffix
  }

  /** The file name rule: the result ends with '.png'; a default name is
      `user_wordcloud_<timestamp>.png`; a given name that already ends with
      '.png' is kept as it is, any other gets '.png' appended. */
  lemma FilenameRule(requested: Option<string>, timestamp: string)
    ensures EndsWith(FinalFilename(requested, timestamp), PngSuffix)
    ensures requested.None? || requested.value == "" ==>
              FinalFilename(requested, timestamp) == DefaultPrefix + timestamp + PngSuffix
    ensures requested.Some? && requested.value != "" && EndsWith(requested.value, PngSuffix) ==>
              FinalFilename(requested, timestamp) == requested.value
    ensures requested.Some? && requested.value != "" && !EndsWith(requested.value, PngSuffix) ==>
              FinalFilename(requested, timestamp) == requested.value + PngSuffix
  {
    var d := DefaultPrefix + timestamp + PngSuffix;
    assert d[|d| - |PngSuffix|..] == PngSuffix;
    if requested.Some? && requested.value != "" && !EndsWith(requested.value, PngSuffix) {
      var n := requested.value + PngSuffix;
      assert n[|n| - |PngSuffix|..] == PngSuffix;
    }
  }

  /** Normalising a normalised name changes nothing, whatever the timestamp. */
  lemma FilenameIdempotent(requested: Option<string>, timestamp: string, later: string)
    ensures FinalFilename(Some(FinalFilename(requested, timestamp)), later) == FinalFilename(requested, timestamp)
  {
    FilenameRule(requested, timestamp);
  }

  /** `generate_wordcloud(processed_text, output_filename)`: `None` for empty
      or white-space-only text or when rendering or saving raised, otherwise
      the picture directory joined with the final file name. */
  function GenerateWordcloud(processedText: string, requested: Option<string>, pictureDir: string,
                             timestamp: string, f: Flavour, rendered: bool, isSpace: char -> bool): Option<string>
  {
    if processedText == "" || Strip(processedText, isSpace) == "" then None
    else if !rendered then None
    else Some(JoinPath(f, pictureDir, [FinalFilename(requested, timestamp)]))
  }

  /** A picture is produced exactly when the text has a non-space character
      and rendering succeeded; its path ends with the final file name, and so
      with '.png'. */
  lemma WordcloudOutcome(processedText: string, requested: Option<string>, pictureDir: string,
                         timestamp: string, f: Flavour, rendered: bool, isSpace: char -> bool)
    ensures var r := GenerateWordcloud(processedText, requested, pictureDir, timestamp, f, rendered, isSpace);
            && (r.Some? <==> !IsBlank(processedText, isSpace) && rendered)
            && (r.Some? ==> EndsWith(r.value, FinalFilename(requested, timestamp)) && EndsWith(r.value, PngSuffix))
  {
    StripShape(processedText, isSpace);
    var r := GenerateWordcloud(processedText, requested, pictureDir, timestamp, f, rendered, isSpace);
    if r.Some? {
      var name := FinalFilename(requested, timestamp);
      JoinPathEndsWithLast(f, pictureDir, [name]);
      FilenameRule(requested, timestamp);
      EndsWithTrans(r.value, name, PngSuffix);
    }
  }

  /** A relative file name lands directly inside the picture directory. */
  lemma WordcloudInPictureDir(processedText: string, requested: Option<string>, pictureDir: string,
                              timestamp: string, f: Flavour, isSpace: char -> bool)
    requires !IsBlank(processedText, isSpace)
    requires Relative(f, FinalFilename(requested, timestamp))
    requires |pictureDir| > 0 && !IsSep(f, pictureDir[|pictureDir| - 1])
    ensures var r := GenerateWordcloud(processedText, requested, pictureDir, timestamp, f, true, isSpace);
            r == Some(pictureDir + [Sep(f)] + FinalFilename(requested, timestamp))
  {
    StripShape(processedText, isSpace);
    var name := FinalFilename(requested, timestamp);
    assert [name][1..] == [];
    assert JoinPath(f, pictureDir, [name]) == Join2(f, pictureDir, name);
  }
}
