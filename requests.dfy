/** The desktop app's report body: the media object built from the
    now-playing fields, with the process name rewritten by the first
    matching rule of the configuration, and the update wrapping the process
    description, the optional media object, the token and the time.

    The configuration's rules and the epoch seconds are parameters. */
module Requests {
  import opened Common

  /** The JSON values the body holds. */
  datatype Json =
    | JString(s: string)
    | JNumber(n: int)
    | JObject(fields: map<string, Json>)

  /** A rewrite rule: `match_application` and `replace.application` (the
      replacement description is not used here). */
  datatype Rule = Rule(matchApplication: string, replaceApplication: string, replaceDescription: string)

  /** The position of the first rule matching `app` (`iter().find`). */
  function FindRule(rules: seq<Rule>, app: string): (r: Option<nat>)
    ensures r.Some? ==> r.value < |rules| && rules[r.value].matchApplication == app
    ensures r.Some? ==> forall j :: 0 <= j < r.value ==> rules[j].matchApplication != app
    ensures r.None? <==> forall j :: 0 <= j < |rules| ==> rules[j].matchApplication != app
  {
    if rules == [] then None
    else if rules[0].matchApplication == app then Some(0)
    else match FindRule(rules[1..], app)
      case None => None
      case Some(i) => Some(i + 1)
  }

  /** The reported process name: the first matching rule's replacement, or
      the source app's own name. */
  function ProcessName(rules: seq<Rule>, app: string): (name: string)
    ensures (forall j :: 0 <= j < |rules| ==> rules[j].matchApplication != app) ==> name == app
    ensures forall i ::
              (0 <= i < |rules| && rules[i].matchApplication == app
               && (forall j :: 0 <= j < i ==> rules[j].matchApplication != app))
              ==> name == rules[i].replaceApplication
  {
    match FindRule(rules, app)
    case None => app
    case Some(i) => rules[i].replaceApplication
  }

  /** Rules after the first match for an app never affect its name. */
  lemma LaterRulesIgnored(rules: seq<Rule>, more: seq<Rule>, app: string)
    requires exists i :: 0 <= i < |rules| && rules[i].matchApplication == app
    ensures ProcessName(rules + more, app) == ProcessName(rules, app)
  {
    var k :| 0 <= k < |rules| && rules[k].matchApplication == app;
    FindRuleLaterIgnored(rules, more, app, k);
    var i := FindRule(rules, app).value;
    assert (rules + more)[i] == rules[i];
  }

  /** The first match in a list is the first match in any extension. */
  lemma {:induction false} FindRuleLaterIgnored(rules: seq<Rule>, more: seq<Rule>, app: string, k: nat)
    requires k < |rules| && rules[k].matchApplication == app
    ensures FindRule(rules, app).Some? && FindRule(rules + more, app) == FindRule(rules, app)
    decreases |rules|
  {
    var all := rules + more;
    assert all[0] == rules[0];
    if rules[0].matchApplication != app {
      assert rules[1..][k - 1].matchApplication == app;
      FindRuleLaterIgnored(rules[1..], more, app, k - 1);
      assert all[1..] == rules[1..] + more;
    }
  }

  const TitleKey: string := "title"
  const ArtistKey: string := "artist"
  const ProcessNameKey: string := "processName"
  const ThumbnailKey: string := "AlbumThumbnail"
  const DurationKey: string := "duration"
  const ElapsedKey: string := "elapsedTime"

  /** `build_media_update`, insert by insert. */
  method BuildMediaUpdate(title: string, artist: string, sourceAppName: string, thumbnail: string,
                          duration: int, elapsedTime: int, rules: seq<Rule>)
    returns (update: map<string, Json>)
    ensures update.Keys == {TitleKey, ArtistKey, ProcessNameKey, ThumbnailKey, DurationKey, ElapsedKey}
    ensures update[TitleKey] == JString(title) && update[ArtistKey] == JString(artist)
    ensures update[ProcessNameKey] == JString(ProcessName(rules, sourceAppName))
    ensures update[ThumbnailKey] == JString(thumbnail)
    ensures update[DurationKey] == JNumber(duration) && update[ElapsedKey] == JNumber(elapsedTime)
  {
    update := map[];
    update := update[TitleKey := JString(title)];
    update := update[ArtistKey := JString(artist)];
    var processName := ProcessName(rules, sourceAppName);
    update := update[ProcessNameKey := JString(processName)];
    update := update[ThumbnailKey := JString(thumbnail)];
    update := update[DurationKey := JNumber(duration)];
    update := update[ElapsedKey := JNumber(elapsedTime)];
  }

  const TimestampKey: string := "timestamp"
  const TokenKey: string := "key"
  const ProcessKey: string := "process"
  const MediaKey: string := "media"
  const NameKey: string := "name"
  const DescriptionKey: string := "description"
  const IconUrlKey: string := "iconUrl"
  const IconBase64Key: string := "iconBase64"

  /** An icon given as a web address rather than inline image data. */
  predicate IsIconUrl(icon: string)
  {
    StartsWith(icon, "http://") || StartsWith(icon, "https://")
  }

  /** The media object is sent only with a non-empty string title. */
  predicate HasTitle(mediaUpdate: map<string, Json>)
  {
    TitleKey in mediaUpdate && mediaUpdate[TitleKey].JString? && mediaUpdate[TitleKey].s != ""
  }

  /** `build_data`, insert by insert; `timestamp` is the current epoch
      seconds. */
  method BuildData(processName: string, mediaUpdate: map<string, Json>, token: string, icon: string, timestamp: int)
    returns (data: map<string, Json>)
    ensures TimestampKey in data && data[TimestampKey] == JNumber(timestamp)
    ensures TokenKey in data && data[TokenKey] == JString(token)
    ensures MediaKey in data <==> HasTitle(mediaUpdate)
    ensures MediaKey in data ==> data[MediaKey] == JObject(mediaUpdate)
    ensures data.Keys == {TimestampKey, TokenKey, ProcessKey} + (if HasTitle(mediaUpdate) then {MediaKey} else {})
    ensures ProcessKey in data && data[ProcessKey].JObject?
    ensures var process := data[ProcessKey].fields;
      && NameKey in process && process[NameKey] == JString(TrimEnd(processName, '\0'))
      && DescriptionKey in process && process[DescriptionKey] == JString(TrimEnd(processName, '\0'))
      && (IconUrlKey in process <==> IsIconUrl(icon))
      && (IconBase64Key in process <==> !IsIconUrl(icon) && icon != "")
      && (IconUrlKey in process ==> process[IconUrlKey] == JString(icon))
      && (IconBase64Key in process ==> process[IconBase64Key] == JString(icon))
      && process.Keys <= {NameKey, DescriptionKey, IconUrlKey, IconBase64Key}
  {
    data := map[];
    data := data[TimestampKey := JNumber(timestamp)];
    data := data[TokenKey := JString(token)];
    var process: map<string, Json> := map[];
    process := process[NameKey := JString(TrimEnd(processName, '\0'))];
    process := process[DescriptionKey := JString(TrimEnd(processName, '\0'))];
    if IsIconUrl(icon) {
      process := process[IconUrlKey := JString(icon)];
    } else if icon != "" {
      process := process[IconBase64Key := JString(icon)];
    }
    data := data[ProcessKey := JObject(process)];
    if TitleKey in mediaUpdate {
      var title := mediaUpdate[TitleKey];
      if title.JString? && title.s != "" {
        data := data[MediaKey := JObject(mediaUpdate)];
      }
    }
  }

  /** The name reported for the process carries no trailing NUL and
      differs from the given name only by the NULs it drops. */
  lemma ReportedNameDropsOnlyNuls(processName: string)
    ensures var name := TrimEnd(processName, '\0');
      && (name == [] || name[|name| - 1] != '\0')
      && processName == name + seq(|processName| - |name|, _ => '\0')
  {
    var name := TrimEnd(processName, '\0');
    var nuls := seq(|processName| - |name|, _ => '\0');
    assert processName == name + nuls;
  }
}
