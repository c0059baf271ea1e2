/** The two display formatters shared by the job table, the detail modal
    and the insights modal: the status-to-tag-colour table and the
    timestamp guard. */
module Formatters {
  import opened JsValues
  import opened Text

  /** Every colour `StatusColor` can produce. */
  const Colors: set<string> :=
    {"success", "error", "processing", "default", "warning", "purple", "cyan", "grey", "magenta"}

  /** The statuses with a colour of their own (lower-case). */
  const KnownStatuses: set<string> :=
    {"completed", "failed", "active", "waiting", "delayed", "paused", "waiting-children", "unknown", "error"}

  /** The colour of an already lower-cased status (the `switch`). */
  function ColorOfKey(key: string): (color: string)
    ensures color in Colors
    ensures color == "default" <==> key == "waiting" || key !in KnownStatuses
  {
    if key == "completed" then "success"
    else if key == "failed" then "error"
    else if key == "active" then "processing"
    else if key == "waiting" then "default"
    else if key == "delayed" then "warning"
    else if key == "paused" then "purple"
    else if key == "waiting-children" then "cyan"
    else if key == "unknown" then "grey"
    else if key == "error" then "magenta"
    else "default"
  }

  /** `getStatusColor`: case-insensitive lookup of the tag colour for a
      status, `"default"` for anything it does not know. */
  function StatusColor(status: string): (color: string)
    ensures color in Colors
  {
    ColorOfKey(Lower(status))
  }

  /** The lookup ignores ASCII case. */
  lemma StatusColorCaseInsensitive(status: string)
    ensures StatusColor(status) == StatusColor(Lower(status))
    ensures StatusColor(status) == StatusColor(Upper(status))
  {
    LowerIdempotent(status);
    LowerOfUpper(status);
  }

  /** A status already in lower case is looked up as it is. */
  lemma StatusColorOfLowercase(status: string)
    requires forall i :: 0 <= i < |status| ==> !IsUpperAscii(status[i])
    ensures StatusColor(status) == ColorOfKey(status)
  {
    LowerKeepsLowercase(status);
  }

  /** The table of known statuses, as the tests pin it (every key is in
      lower case, so `StatusColorOfLowercase` carries it to `StatusColor`). */
  lemma StatusColorTable()
    ensures ColorOfKey("completed") == "success" && ColorOfKey("failed") == "error"
    ensures ColorOfKey("active") == "processing" && ColorOfKey("waiting") == "default"
    ensures ColorOfKey("delayed") == "warning" && ColorOfKey("paused") == "purple"
    ensures ColorOfKey("waiting-children") == "cyan" && ColorOfKey("unknown") == "grey"
    ensures ColorOfKey("error") == "magenta" && StatusColor("") == "default"
  {
  }

  /** Upper-case spellings get the same colour (`"COMPLETED"` is `"success"`). */
  lemma StatusColorUpperCase()
    ensures StatusColor("COMPLETED") == "success"
  {
    LowerCharwise("COMPLETED", "completed");
  }

  /** `"default"` is the colour of `"waiting"` and of every unknown status,
      and of nothing else: the map is not injective. */
  lemma StatusColorDefault(status: string)
    ensures StatusColor(status) == "default" <==> Lower(status) == "waiting" || Lower(status) !in KnownStatuses
  {
  }

  /** `formatTimestamp`: `"N/A"` for a missing (`null`/`undefined`)
      timestamp, otherwise the host's locale rendering `toLocale` of it,
      including for 0 and negative values. */
  function FormatTimestamp(timestamp: Option<int>, toLocale: int -> string): (r: string)
    ensures timestamp.None? ==> r == "N/A"
    ensures timestamp.Some? ==> r == toLocale(timestamp.value)
  {
    match timestamp
    case None => "N/A"
    case Some(t) => toLocale(t)
  }

  /** With a locale rendering that never yields the text `"N/A"` (a real
      date string never does), `"N/A"` appears exactly for a missing timestamp. */
  lemma FormatTimestampNotAvailable(timestamp: Option<int>, toLocale: int -> string)
    requires forall t :: toLocale(t) != "N/A"
    ensures FormatTimestamp(timestamp, toLocale) == "N/A" <==> timestamp.None?
  {
  }
}
