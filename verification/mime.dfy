/** Content-type resolution for an upload: an explicit type, else the system
    table, else a small built-in table keyed by lower-cased extension, else
    `application/octet-stream`. */
module Mime {

  const OctetStream := "application/octet-stream"

  /** The two standard-library lookups resolution relies on, taken as
      uninterpreted functions: `filepath.Ext` (extension of a file name, with
      its dot) and `mime.TypeByExtension` (the system table, "" when unknown). */
  datatype Platform = Platform(extOf: string -> string, typeByExtension: string -> string)

  /** `unicode.ToLower` on the letters whose lower case is ASCII: 'A' to 'Z',
      U+0130 (capital I with dot above, lower case 'i') and U+212A (the
      Kelvin sign, lower case 'k'). Every other letter keeps its case here;
      in Go its lower case is a non-ASCII letter. */
  function LowerChar(c: char): (l: char)
    ensures 'a' <= l <= 'z' && l != c <==> 'A' <= c <= 'Z' || c == '\U{0130}' || c == '\U{212A}'
    ensures 'A' <= c <= 'Z' ==> l as int == c as int + 32
    ensures c == '\U{0130}' ==> l == 'i'
    ensures c == '\U{212A}' ==> l == 'k'
    ensures !('A' <= c <= 'Z' || c == '\U{0130}' || c == '\U{212A}') ==> l == c
    ensures !('A' <= l <= 'Z')
  {
    if 'A' <= c <= 'Z' then (c as int + 32) as char
    else if c == '\U{0130}' then 'i'
    else if c == '\U{212A}' then 'k'
    else c
  }

  /** `strings.ToLower`, as far as lower-casing can produce ASCII. */
  function ToLower(s: string): (r: string)
    ensures |r| == |s|
    ensures forall i :: 0 <= i < |s| ==> r[i] == LowerChar(s[i])
    ensures forall i :: 0 <= i < |r| ==> !('A' <= r[i] <= 'Z')
  {
    seq(|s|, i requires 0 <= i < |s| => LowerChar(s[i]))
  }

  /** The fallback table of the client, keyed by lower-case extension. */
  const BuiltinTypes: map<string, string> := map[
    ".pdf" := "application/pdf",
    ".jpg" := "image/jpeg",
    ".jpeg" := "image/jpeg",
    ".png" := "image/png",
    ".gif" := "image/gif",
    ".webp" := "image/webp",
    ".doc" := "application/msword",
    ".docx" := "application/vnd.openxmlformats-officedocument.wordprocessingml.document",
    ".xls" := "application/vnd.ms-excel",
    ".xlsx" := "application/vnd.openxmlformats-officedocument.spreadsheetml.sheet",
    ".zip" := "application/zip",
    ".txt" := "text/plain",
    ".mp4" := "video/mp4",
    ".mp3" := "audio/mpeg"
  ]

  /** `getMimeType`: the table entry for the lower-cased extension, or "" (the
      zero value of a missing map key). */
  function BuiltinMimeType(ext: string): (t: string)
    ensures t != "" <==> ToLower(ext) in BuiltinTypes
    ensures t != "" ==> t == BuiltinTypes[ToLower(ext)]
  {
    var key := ToLower(ext);
    if key in BuiltinTypes then BuiltinTypes[key] else ""
  }

  /** Lower-casing twice is lower-casing once. */
  lemma ToLowerIdempotent(s: string)
    ensures ToLower(ToLower(s)) == ToLower(s)
  {
  }

  /** The built-in table ignores the case of the extension. */
  lemma BuiltinIgnoresCase(a: string, b: string)
    requires ToLower(a) == ToLower(b)
    ensures BuiltinMimeType(a) == BuiltinMimeType(b)
    ensures BuiltinMimeType(a) == BuiltinMimeType(ToLower(a))
  {
    ToLowerIdempotent(a);
  }

  /** Upper-case extensions are recognised: ".PDF" is a PDF. */
  lemma UpperCasePdf()
    ensures BuiltinMimeType(".PDF") == "application/pdf"
  {
    assert ToLower(".PDF") == ".pdf";
  }

  /** Go lower-cases U+0130 to 'i' and the Kelvin sign to 'k': ".GİF" and
      ".ZİP" are found in the table, and the Kelvin sign alone becomes ".k",
      which is not a key. */
  lemma NonAsciiCapitals()
    ensures BuiltinMimeType(".G\U{0130}F") == "image/gif"
    ensures BuiltinMimeType(".Z\U{0130}P") == "application/zip"
    ensures BuiltinMimeType(".\U{212A}") == ""
  {
    assert ToLower(".G\U{0130}F") == ".gif";
    assert ToLower(".Z\U{0130}P") == ".zip";
  }

  /** The content type sent with the initiate request and with every part. */
  function ResolveMimeType(explicit: string, fileName: string, platform: Platform): (t: string)
    ensures t != ""
    ensures explicit != "" ==> t == explicit
    ensures explicit == "" ==>
              var system := platform.typeByExtension(platform.extOf(fileName));
              var builtin := BuiltinMimeType(platform.extOf(fileName));
              && (system != "" ==> t == system)
              && (system == "" && builtin != "" ==> t == builtin)
              && (system == "" && builtin == "" ==> t == OctetStream)
  {
    if explicit != "" then explicit
    else
      var ext := platform.extOf(fileName);
      var system := platform.typeByExtension(ext);
      if system != "" then system
      else
        var builtin := BuiltinMimeType(ext);
        if builtin != "" then builtin else OctetStream
  }
}
