/** The server's file-name rules in app.py: `allowed_file`, which gates uploads on the
    extension after the last dot, and the `is_pdf` flag derived the same way from the
    sanitised name. */
module ServerFiles {
  import opened Wrappers
  import opened Strings

  /** `ALLOWED_EXTENSIONS`. */
  const AllowedExtensions: set<string> := {"png", "jpg", "jpeg", "pdf"}

  /** `'.' in filename and filename.rsplit('.', 1)[1].lower() in ALLOWED_EXTENSIONS`. */
  function AllowedFile(filename: string): (r: bool)
    ensures r ==> '.' in filename && |filename| >= 4
  {
    match AfterLastDot(filename)
    case None => false
    case Some(ext) => LowerAscii(ext) in AllowedExtensions
  }

  /** The rule in its own words: there is a dot such that no dot follows it and the text
      after it, lowercased, is an allowed extension. */
  lemma AllowedFileIff(filename: string)
    ensures AllowedFile(filename) <==>
      exists i :: 0 <= i < |filename| && filename[i] == '.' && '.' !in filename[i + 1..]
        && LowerAscii(filename[i + 1..]) in AllowedExtensions
  {
    var r := AfterLastDot(filename);
    if r.Some? {
      var j := |filename| - |r.value| - 1;
      assert filename[j + 1..] == r.value;
    }
    forall i | 0 <= i < |filename| && filename[i] == '.' && '.' !in filename[i + 1..]
      ensures r == Some(filename[i + 1..])
    {
      Extension(filename, filename[i + 1..]);
    }
  }

  /** The extension is compared in lower case. */
  lemma UppercaseExtensionAccepted()
    ensures AllowedFile("notes.PDF")
  {
    Extension("notes.PDF", "PDF");
    assert LowerAscii("PDF") == "pdf";
  }

  /** Only the text after the last dot counts, whatever precedes it (other dots
      included): `a.exe.pdf` passes, `a.pdf.exe` and `photo.` do not, `.png` does. */
  lemma LastExtensionDecides(base: string, ext: string)
    requires '.' !in ext
    ensures AllowedFile(base + "." + ext) <==> LowerAscii(ext) in AllowedExtensions
  {
    var name := base + "." + ext;
    assert name[|name| - |ext|..] == ext;
    assert name[|name| - |ext| - 1] == '.';
    Extension(name, ext);
  }

  /** A name without a dot is refused. */
  lemma DotlessNameRefused(name: string)
    requires '.' !in name
    ensures !AllowedFile(name)
  {
  }

  /** `ext` is what follows the last dot of `name`. */
  lemma {:induction false} Extension(name: string, ext: string)
    requires |ext| < |name| && name[|name| - |ext| - 1] == '.' && name[|name| - |ext|..] == ext && '.' !in ext
    ensures AfterLastDot(name) == Some(ext)
  {
    if ext != [] {
      var init := name[..|name| - 1];
      assert init[|init| - |ext| + 1..] == ext[..|ext| - 1];
      Extension(init, ext[..|ext| - 1]);
      assert name == init + [ext[|ext| - 1]];
    }
  }

  /** `filename.rsplit('.', 1)[1].lower() == 'pdf'` on the sanitised name; `None` where
      the name has no dot and the indexing raises `IndexError`. */
  function IsPdf(sanitized: string): (r: Option<bool>)
    ensures r.None? <==> '.' !in sanitized
  {
    match AfterLastDot(sanitized)
    case None => None
    case Some(ext) => Some(LowerAscii(ext) == "pdf")
  }

  /** A name that passes `allowed_file` yields a flag, and a PDF flag means the name
      passes `allowed_file`. */
  lemma IsPdfAndAllowedFile(name: string)
    ensures AllowedFile(name) ==> IsPdf(name).Some?
    ensures IsPdf(name) == Some(true) ==> AllowedFile(name)
    ensures IsPdf(name) == Some(true) <==> AfterLastDot(name).Some? && LowerAscii(AfterLastDot(name).value) == "pdf"
  {
  }
}
