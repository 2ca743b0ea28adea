/**
 * The regions of the bundled world GeoJSON and how a refresh decides which of
 * them to draw and which value each one shows.
 *
 * The feature objects come from a module-level import, so every refresh sees the
 * same objects: `name` and `name2` never change, while `tooltipContent` is written
 * by the style callback and survives into later refreshes.
 */
module Regions {
  import opened Wrappers

  class Feature {
    /** `feature.properties.name`, the primary region name. */
    const name: string
    /** `feature.properties.name2`, an optional alias; `None` when the property is absent. */
    const name2: Option<string>
    /** `feature.properties.tooltipContent`; absent (falsy) is the empty string. */
    var tooltipContent: string

    constructor (name: string, name2: Option<string>)
      ensures this.name == name && this.name2 == name2 && tooltipContent == ""
    {
      this.name := name;
      this.name2 := name2;
      tooltipContent := "";
    }
  }

  /** `countriesInData.has(name) || countriesInData.has(name2)`. */
  predicate Mentioned(f: Feature, countries: set<string>) {
    f.name in countries || (f.name2.Some? && f.name2.value in countries)
  }

  /**
   * `features.filter(...)`: keeps the features mentioned in the data, in their
   * original order.
   */
  function FilterMentioned(features: seq<Feature>, countries: set<string>): (kept: seq<Feature>)
    ensures |kept| <= |features|
    ensures forall k :: 0 <= k < |kept| ==> kept[k] in features && Mentioned(kept[k], countries)
    ensures forall k :: 0 <= k < |features| && Mentioned(features[k], countries) ==> features[k] in kept
  {
    if features == [] then []
    else
      var rest := FilterMentioned(features[1..], countries);
      if Mentioned(features[0], countries) then [features[0]] + rest else rest
  }

  /**
   * The features of the filtered collection: every feature when gridlines on blank
   * regions are shown, else the mentioned ones. Either way no mentioned feature is
   * dropped and nothing outside the input is added.
   */
  function KeptFeatures(features: seq<Feature>, countries: set<string>, showBlank: bool): (kept: seq<Feature>)
    ensures showBlank ==> kept == features
    ensures forall k :: 0 <= k < |kept| ==> kept[k] in features
    ensures forall k :: 0 <= k < |features| && Mentioned(features[k], countries) ==> features[k] in kept
    ensures !showBlank ==> forall k :: 0 <= k < |kept| ==> Mentioned(kept[k], countries)
  {
    if showBlank then features else FilterMentioned(features, countries)
  }

  /** The filter preserves order: filtering a concatenation concatenates the filtered parts. */
  lemma {:induction false} FilterConcat(a: seq<Feature>, b: seq<Feature>, countries: set<string>)
    ensures FilterMentioned(a + b, countries) == FilterMentioned(a, countries) + FilterMentioned(b, countries)
  {
    if a == [] {
      assert a + b == b;
    } else {
      assert (a + b)[0] == a[0];
      assert (a + b)[1..] == a[1..] + b;
      FilterConcat(a[1..], b, countries);
    }
  }

  /** A filter that keeps a feature list unchanged exactly when every feature in it is mentioned. */
  lemma {:induction false} FilterKeepsAll(features: seq<Feature>, countries: set<string>)
    ensures FilterMentioned(features, countries) == features
      <==> forall k :: 0 <= k < |features| ==> Mentioned(features[k], countries)
  {
    if features != [] {
      FilterKeepsAll(features[1..], countries);
      if !Mentioned(features[0], countries) {
        assert |FilterMentioned(features, countries)| < |features| by {
          assert FilterMentioned(features, countries) == FilterMentioned(features[1..], countries);
        }
      } else {
        forall k | 1 <= k < |features| ensures features[k] == features[1..][k - 1] { }
      }
    }
  }

  /**
   * The style callback's lookup: the value under `name`, else under `name2`. A value
   * found is always one the table holds, and the name wins when it is a key.
   */
  function Lookup(countryData: map<string, int>, f: Feature): (r: Option<int>)
    ensures r.Some? ==> r.value in countryData.Values
    ensures f.name in countryData ==> r == Some(countryData[f.name])
  {
    if f.name in countryData then Some(countryData[f.name])
    else if f.name2.Some? && f.name2.value in countryData then Some(countryData[f.name2.value])
    else None
  }

  /**
   * A feature has a value exactly when its name or its alias is a key of the table;
   * the name wins when both are.
   */
  lemma LookupFindsMentioned(countryData: map<string, int>, f: Feature)
    ensures Lookup(countryData, f).Some? <==> Mentioned(f, countryData.Keys)
    ensures f.name in countryData ==> Lookup(countryData, f) == Some(countryData[f.name])
  {
  }
}
