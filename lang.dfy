/**
 * The language and country decisions of utils/lang.py. The language detector and the
 * public-suffix lookup are foreign code: the detector's candidate list (or the exception it
 * raised) and the suffix of a URL are inputs.
 */
module Lang {
  import opened Wrappers
  import opened Text

  /** One candidate of the detector: a language code with its probability. */
  datatype Candidate = Candidate(lang: string, prob: real)

  /** The default confidence a candidate must reach. */
  const DefaultThreshold: real := 0.8

  /**
   * `detect_language`: `candidates` is what the detector returned for the text, most probable
   * first, or `None` when it raised; the result is the first candidate's language when its
   * probability reaches the threshold, and `""` for "unsure" in every other case.
   */
  function DetectLanguage(candidates: Option<seq<Candidate>>, threshold: real): (r: string)
    ensures r != "" ==>
      (candidates.Some? && |candidates.value| > 0 && r == candidates.value[0].lang && candidates.value[0].prob >= threshold)
    ensures candidates.Some? && |candidates.value| > 0 && candidates.value[0].prob >= threshold
      ==> r == candidates.value[0].lang
    ensures candidates.None? || candidates.value == [] ==> r == ""
  {
    match candidates
    case None => ""
    case Some(langs) =>
      if langs == [] then ""
      else if langs[0].prob >= threshold then langs[0].lang
      else ""
  }

  /** Raising the threshold can only turn a detected language into "unsure", never change it. */
  lemma ThresholdMonotone(candidates: Option<seq<Candidate>>, low: real, high: real)
    requires low <= high
    ensures DetectLanguage(candidates, high) == "" || DetectLanguage(candidates, high) == DetectLanguage(candidates, low)
  {
  }

  /** The last `.`-separated label of a public suffix, lower-cased (`co.uk` gives `uk`). */
  function LastLabel(suffix: string): (r: string)
    ensures '.' !in r && Lower(r) == r
  {
    var labels := Split(suffix, '.');
    LowerIdempotent(labels[|labels| - 1]);
    Lower(labels[|labels| - 1])
  }

  /**
   * `extract_country`: `url` is `None` for a missing URL, and `suffixOf` is the public-suffix
   * lookup. A two-character last label is the country, `com` stands for `us`, and anything else
   * (including an empty URL) is `""`.
   */
  function ExtractCountry(url: Option<string>, suffixOf: string -> string): (r: string)
    ensures r == "" || (|r| == 2 && Lower(r) == r)
    ensures url.None? || url.value == "" ==> r == ""
    ensures url.Some? && url.value != "" ==>
      var last := LastLabel(suffixOf(url.value));
      (|last| == 2 ==> r == last) && (last == "com" ==> r == "us")
      && (|last| != 2 && last != "com" ==> r == "")
  {
    if url.None? || url.value == "" then ""
    else
      var last := LastLabel(suffixOf(url.value));
      if |last| == 2 then last
      else if last == "com" then "us"
      else ""
  }

  /** A suffix ending in a two-letter label gives that label, lower-cased: `co.UK` gives `uk`. */
  lemma {:induction false} TwoLetterSuffix(url: string, suffixOf: string -> string, head: string, tld: string)
    requires url != "" && suffixOf(url) == head + "." + tld
    requires |tld| == 2 && '.' !in tld
    ensures ExtractCountry(Some(url), suffixOf) == Lower(tld)
  {
    SplitLast(head, '.', tld);
    assert head + "." + tld == head + ['.'] + tld;
  }

  /** A URL without a public suffix (an IP address, an unknown domain) has no country. */
  lemma EmptySuffix(url: string, suffixOf: string -> string)
    requires suffixOf(url) == ""
    ensures ExtractCountry(Some(url), suffixOf) == ""
  {
    assert Split("", '.') == [""];
  }

  /** A `.com` URL is placed in the United States. */
  lemma ComIsUs(url: string, suffixOf: string -> string)
    requires url != "" && suffixOf(url) == "com"
    ensures ExtractCountry(Some(url), suffixOf) == "us"
  {
    assert Split("com", '.') == ["com"];
    assert Lower("com") == "com";
  }
}
