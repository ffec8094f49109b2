/**
 * The upload filters of the two services: a file name is accepted when it
 * contains a '.' and the lower-cased text after the last '.' is one of the
 * service's extensions.
 */
module FileTypes {
  import opened Wrappers
  import opened Text

  /** The serverless transcription API accepts video and audio containers. */
  const ApiExtensions: set<string> := {"mp4", "avi", "mov", "mkv", "wmv", "flv", "webm", "mp3", "wav"}

  /** The subtitle-burning service accepts video containers only. */
  const VideoExtensions: set<string> := {"mp4", "avi", "mov", "mkv", "wmv", "flv", "webm"}

  function AllowedFile(filename: string, extensions: set<string>): bool {
    match LastDot(filename)
    case None => false
    case Some(i) => Lower(filename[i + 1..]) in extensions
  }

  function ApiAllowedFile(filename: string): bool {
    AllowedFile(filename, ApiExtensions)
  }

  function VideoAllowedFile(filename: string): bool {
    AllowedFile(filename, VideoExtensions)
  }

  /** Both directions of the filter: a name without '.' is refused, and a name
      whose last '.' is at `i` is accepted exactly when its lower-cased
      extension is in the set. */
  lemma AllowedFileExactly(filename: string, extensions: set<string>, i: nat)
    requires i < |filename| && filename[i] == '.' && '.' !in filename[i + 1..]
    ensures AllowedFile(filename, extensions) <==> Lower(filename[i + 1..]) in extensions
  {
    LastDotUnique(filename, i);
  }

  lemma NoDotRefused(filename: string, extensions: set<string>)
    requires '.' !in filename
    ensures !AllowedFile(filename, extensions)
  {
  }

  /** Every name the video service accepts is accepted by the API. */
  lemma VideoAllowedIsApiAllowed(filename: string)
    ensures VideoAllowedFile(filename) ==> ApiAllowedFile(filename)
  {
  }

  /** The names the API accepts and the video service refuses are exactly those whose
      lower-cased last extension is an audio one, "mp3" or "wav". */
  lemma AudioOnlyForApi(filename: string)
    ensures ApiAllowedFile(filename) && !VideoAllowedFile(filename)
      <==> LastDot(filename).Some? && Lower(filename[LastDot(filename).value + 1..]) in {"mp3", "wav"}
  {
  }

  /** The test ignores case: a name and its lower-cased form are accepted or refused alike. */
  lemma AllowedFileIgnoresCase(filename: string, extensions: set<string>)
    ensures AllowedFile(Lower(filename), extensions) == AllowedFile(filename, extensions)
  {
    var t := Lower(filename);
    LastDotLower(filename);
    if LastDot(filename).Some? {
      var i := LastDot(filename).value;
      var ext := filename[i + 1..];
      LowerSuffix(filename, i + 1);
      LowerIdempotent(ext);
      assert Lower(t[i + 1..]) == Lower(ext);
    }
  }

  /** The test on the extension ignores case, including the Kelvin sign (U+212A), which
      lower-cases to 'k': "m\U{212A}v" is the extension "mkv". */
  lemma ExtensionCaseIgnored()
    ensures VideoAllowedFile("Clip.MP4")
    ensures VideoAllowedFile("clip.m\U{212A}v")
  {
    var f := "Clip.MP4";
    assert f[5..] == "MP4";
    AllowedFileExactly(f, VideoExtensions, 4);
    assert Lower("MP4") == "mp4";
    var g := "clip.m\U{212A}v";
    assert g[5..] == "m\U{212A}v";
    AllowedFileExactly(g, VideoExtensions, 4);
    assert Lower("m\U{212A}v") == "mkv";
  }

  /** Only the text after the LAST '.' is the extension: an earlier ".tar" does not matter. */
  lemma LastExtensionAccepted()
    ensures VideoAllowedFile("a.tar.mkv")
  {
    var f := "a.tar.mkv";
    assert f[6..] == "mkv";
    AllowedFileExactly(f, VideoExtensions, 5);
    assert Lower("mkv") == "mkv";
  }

  /** Only the text after the LAST '.' is the extension: an earlier ".mp4" does not help. */
  lemma LastExtensionRefused()
    ensures !ApiAllowedFile("a.mp4.txt")
  {
    var g := "a.mp4.txt";
    assert g[6..] == "txt";
    AllowedFileExactly(g, ApiExtensions, 5);
    assert Lower("txt") == "txt";
  }
}
