/** The labels and style classes script.js shows for a status value
    (`formatStatus`, `statusColor`). */
module StatusLabels {

  /** The five status values the screens know: three task statuses and two
      project statuses. */
  predicate KnownStatus(s: string)
  {
    s == "PENDING" || s == "IN_PROGRESS" || s == "COMPLETED" || s == "ACTIVE" || s == "ARCHIVED"
  }

  function ToLower(c: char): char
  {
    if 'A' <= c <= 'Z' then (c as int + 32) as char else c
  }

  /** Reference wording for a status constant: every `_` becomes a space, the
      first letter of each word is kept and the other letters are lower-cased
      (`IN_PROGRESS` reads `In Progress`). */
  function Humanize(s: string): string
  {
    seq(|s|, i requires 0 <= i < |s| =>
      if s[i] == '_' then ' '
      else if i == 0 || s[i - 1] == '_' then s[i]
      else ToLower(s[i]))
  }

  /** `formatStatus`: a known status gets its fixed label, which is the
      humanized constant and differs from it; any other value is returned
      unchanged. */
  function FormatStatus(s: string): (r: string)
    ensures !KnownStatus(s) ==> r == s
    ensures KnownStatus(s) ==> r == Humanize(s) && r != s
  {
    match s
    case "PENDING" => "Pending"
    case "IN_PROGRESS" => "In Progress"
    case "COMPLETED" => "Completed"
    case "ACTIVE" => "Active"
    case "ARCHIVED" => "Archived"
    case _ => s
  }

  const DefaultStatusClass: string := "bg-gray-700/60 text-gray-300"

  /** `statusColor`: a style class for every value, the default one for any
      value that is not a known status. */
  function StatusColor(s: string): (r: string)
    ensures !KnownStatus(s) ==> r == DefaultStatusClass
  {
    match s
    case "PENDING" => "bg-yellow-700/60 text-yellow-200"
    case "IN_PROGRESS" => "bg-blue-700/60 text-blue-200"
    case "COMPLETED" => "bg-green-700/60 text-green-200"
    case "ACTIVE" => "bg-green-700/40 text-green-200"
    case "ARCHIVED" => "bg-gray-700/60 text-gray-300"
    case _ => DefaultStatusClass
  }

  /** The three task statuses and ACTIVE get classes distinct from each other
      and from the default; ARCHIVED shares the default class. */
  lemma StatusColorsDistinct()
    ensures var p, i, c, a := StatusColor("PENDING"), StatusColor("IN_PROGRESS"), StatusColor("COMPLETED"), StatusColor("ACTIVE");
      && p != i && p != c && i != c && a != p && a != i && a != c
      && p != DefaultStatusClass && i != DefaultStatusClass && c != DefaultStatusClass && a != DefaultStatusClass
    ensures StatusColor("ARCHIVED") == DefaultStatusClass
  {
  }
}
