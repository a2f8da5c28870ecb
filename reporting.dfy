/** The text of `Verifier.print_result`: the one result line a verification prints. */
module Reporting {
  import opened Base
  import opened Text
  import opened Paths
  import opened Machine

  /** The name shown in result lines: the basename of the origin URL, or
      nothing when the verifier was built from a local path. */
  function PackageName(url: Option<string>): (name: string)
    ensures url.None? ==> name == ""
    ensures url.Some? ==> name == Basename(url.value)
    ensures url.Some? ==> '/' !in name && EndsWith(url.value, name)
  {
    if url.Some? then Basename(url.value) else ""
  }

  const SUCCESSFUL: string := " verification was successful"
  const FAILED: string := " verification failed "

  /** `print_result(result, err_msg)`: a success line when `result` is
      truthy, otherwise an error line. */
  function ResultReport(url: Option<string>, truthy: bool, errMsg: string): (m: Report)
    ensures m.Success? <==> truthy
    ensures m.Success? || m.Error?
  {
    var text := PackageName(url) + (if truthy then SUCCESSFUL else FAILED + errMsg);
    if truthy then Success(text) else Error(text)
  }

  /** The result line starts with the package name and ends with the
      success phrase, or with the failure phrase and the message. */
  lemma ResultLine(url: Option<string>, truthy: bool, errMsg: string)
    ensures StartsWith(ResultReport(url, truthy, errMsg).text, PackageName(url))
    ensures truthy ==> EndsWith(ResultReport(url, truthy, errMsg).text, SUCCESSFUL)
    ensures !truthy ==> EndsWith(ResultReport(url, truthy, errMsg).text, FAILED + errMsg)
  {
    var name := PackageName(url);
    var tail := if truthy then SUCCESSFUL else FAILED + errMsg;
    var text := name + tail;
    assert text[..|name|] == name && text[|text| - |tail|..] == tail;
  }

  /** The line `get_sign` prints when the signature could not be downloaded. */
  function DownloadFailed(keyUrl: Option<string>, code: Option<int>): (text: string)
    ensures StartsWith(text, "Unable to download file " + ShowText(keyUrl) + " http code ")
    ensures code.Some? ==> EndsWith(text, " http code " + IntToString(code.value))
    ensures code.None? ==> EndsWith(text, " http code None")
  {
    var head := "Unable to download file " + ShowText(keyUrl);
    Affixes(head, " http code " + ShowCode(code));
    head + (" http code " + ShowCode(code))
  }

  /** `"{}".format(x)` for an optional string. */
  function ShowText(x: Option<string>): (t: string)
    ensures x.Some? ==> t == x.value
    ensures x.None? ==> t == "None"
  {
    if x.Some? then x.value else "None"
  }

  /** `"{}".format(x)` for an optional integer. */
  function ShowCode(x: Option<int>): string {
    if x.Some? then IntToString(x.value) else "None"
  }
}
