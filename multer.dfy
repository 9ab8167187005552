/**
 * The upload middleware's rules (server/src/middlewares/multer.middlewares.ts):
 * which MIME types it lets through, where a file goes, and the name it is
 * stored under.
 */
module Upload {
  import opened Prelude

  const ALLOWED_FILE_TYPES: seq<string> := ["image/jpeg", "image/png", "image/gif"]
  const INVALID_TYPE_MESSAGE := "Invalid file type. Only JPEG, PNG, and GIF files are allowed."

  /** Every file is written under this directory. */
  const DESTINATION := "uploads"

  /** `limits.fileSize`, in bytes. */
  const FILE_SIZE_LIMIT: nat := 1 * 1000 * 1000

  /** What `fileFilter` passes to its callback: `(null, true)` or an error. */
  datatype FilterVerdict = Accept | Reject(message: string)

  function FileFilter(mimetype: string): (v: FilterVerdict)
    ensures v.Accept? <==> mimetype == "image/jpeg" || mimetype == "image/png" || mimetype == "image/gif"
    ensures v.Reject? ==> v.message == INVALID_TYPE_MESSAGE
  {
    if mimetype in ALLOWED_FILE_TYPES then Accept else Reject(INVALID_TYPE_MESSAGE)
  }

  /** `originalname.split(".").pop()`: the text after the last ".", or the whole name when it has none. */
  function Extension(name: string): (ext: string)
    ensures '.' !in ext
  {
    var parts := SplitOn(name, '.');
    parts[|parts| - 1]
  }

  /**
   * The stored file name: the generated id, ".", then the extension; so the
   * stored name begins with the id and has the original's extension.
   */
  function StoredName(id: string, originalName: string): (name: string)
    ensures |name| > |id| && name[..|id|] == id && name[|id|] == '.'
    ensures Extension(name) == Extension(originalName)
  {
    SplitLast(id, '.', Extension(originalName));
    id + "." + Extension(originalName)
  }

  /** Splitting text without the separator gives the text back whole. */
  lemma {:induction false} SplitWithout(s: string, c: char)
    requires c !in s
    ensures SplitOn(s, c) == [s]
    decreases |s|
  {
    if |s| > 0 {
      SplitWithout(s[1..], c);
      assert [s[0]] + s[1..] == s;
    }
  }

  /** Text before a separator never changes the last part, and leaves at least two parts. */
  lemma {:induction false} SplitLast(s: string, c: char, e: string)
    requires c !in e
    ensures var parts := SplitOn(s + [c] + e, c);
      |parts| >= 2 && parts[|parts| - 1] == e
    decreases |s|
  {
    var t := s + [c] + e;
    if |s| == 0 {
      assert t == [c] + e && t[1..] == e;
      SplitWithout(e, c);
    } else {
      assert t[1..] == s[1..] + [c] + e;
      SplitLast(s[1..], c, e);
    }
  }

  /** A name with no "." is its own extension. */
  lemma ExtensionWithoutDot(name: string)
    requires '.' !in name
    ensures Extension(name) == name
  {
    SplitWithout(name, '.');
  }

  /** The extension is the part after the last ".", however many dots come before it. */
  lemma ExtensionAfterLastDot(base: string, ext: string)
    requires '.' !in ext
    ensures Extension(base + "." + ext) == ext
  {
    SplitLast(base, '.', ext);
  }
}
