/** Saving a person page as `<output_dir>/<safe title>.html`.

    Every crawler turns the page title into a file name the same way (each character of
    `<>:"/\|?*` becomes `_`, then the name is cut to 100 or 80 characters) but the five
    crawlers disagree on what to do when the file already exists. The output directory is a
    map from file name to the page written there; write errors are not modelled. */
module Store {
  import opened Seqs
  import opened Page

  /** The characters of the class `[<>:"/\\|?*]`. */
  predicate IsForbidden(c: char)
  {
    c == '<' || c == '>' || c == ':' || c == '"' || c == '/' || c == '\\' || c == '|' || c == '?' || c == '*'
  }

  /** `re.sub(r'[<>:"/\\|?*]', '_', title)[:maxLen]`. */
  function SafeTitle(title: string, maxLen: nat): string
  {
    var replaced := seq(|title|, i requires 0 <= i < |title| => if IsForbidden(title[i]) then '_' else title[i]);
    Take(replaced, maxLen)
  }

  /** The safe title is the title cut to `maxLen` characters, with every forbidden character
      replaced by `_` and every other character kept. */
  lemma SafeTitleSpec(title: string, maxLen: nat)
    ensures var r := SafeTitle(title, maxLen);
            |r| == (if |title| <= maxLen then |title| else maxLen)
            && (forall i | 0 <= i < |r| :: !IsForbidden(r[i]))
            && (forall i | 0 <= i < |r| :: r[i] == (if IsForbidden(title[i]) then '_' else title[i]))
  {
  }

  /** `f"{safe_title}.html"`. */
  function FileName(title: string, maxLen: nat): string
  {
    SafeTitle(title, maxLen) + ".html"
  }

  /** A file name is already safe: sanitising it again changes nothing. */
  lemma SafeTitleIdempotent(title: string, maxLen: nat)
    ensures SafeTitle(SafeTitle(title, maxLen), maxLen) == SafeTitle(title, maxLen)
  {
    SafeTitleSpec(title, maxLen);
    SafeTitleSpec(SafeTitle(title, maxLen), maxLen);
  }

  /** Two titles that agree except where both have a forbidden character or `_` share a
      file: "AC/DC" and "AC_DC" are saved under the same name. */
  lemma SlashAndUnderscoreCollide()
    ensures FileName("AC/DC", 100) == FileName("AC_DC", 100)
  {
    assert SafeTitle("AC/DC", 100) == "AC_DC";
    assert SafeTitle("AC_DC", 100) == "AC_DC";
  }

  /** The output directory: file name to the page stored in it. */
  type Dir = map<string, Document>

  /** The result of a save: the returned flag and the directory afterwards. */
  datatype Saved = Saved(ok: bool, dir: Dir)

  /** optimized_wiki_crawler.py `save_page`: an existing file is left alone and the call
      still reports success. */
  function SaveKeepExisting(dir: Dir, name: string, doc: Document): Saved
  {
    if name in dir then Saved(true, dir) else Saved(true, dir[name := doc])
  }

  /** wiki_crawler.py `save_page` and parallel_wiki_crawler.py `save_page_safe`: an existing
      file is left alone and the call reports failure. */
  function SaveIfNew(dir: Dir, name: string, doc: Document): Saved
  {
    if name in dir then Saved(false, dir) else Saved(true, dir[name := doc])
  }

  /** final_assignment_crawler.py `save_person_page` and bypass_wikipedia_crawler.py
      `save_page`: the file is always (over)written and the call reports success. */
  function SaveOverwrite(dir: Dir, name: string, doc: Document): Saved
  {
    Saved(true, dir[name := doc])
  }

  /** What each variant reports and leaves behind: all three make sure a file of that name
      exists and touch no other file; the keeping variants never replace an existing file,
      and only the strict one reports an existing file as a failure; the overwriting one
      always leaves the new page. */
  lemma SaveSpec(dir: Dir, name: string, doc: Document)
    ensures var r := SaveKeepExisting(dir, name, doc);
            r.ok && r.dir.Keys == dir.Keys + {name}
            && (forall f | f in dir :: r.dir[f] == dir[f])
            && (name !in dir ==> r.dir[name] == doc)
    ensures var r := SaveIfNew(dir, name, doc);
            (r.ok <==> name !in dir) && r.dir.Keys == dir.Keys + {name}
            && (forall f | f in dir :: r.dir[f] == dir[f])
            && (r.ok ==> r.dir[name] == doc)
    ensures var r := SaveOverwrite(dir, name, doc);
            r.ok && r.dir.Keys == dir.Keys + {name} && r.dir[name] == doc
            && (forall f | f in dir && f != name :: r.dir[f] == dir[f])
  {
  }

  /** Saving the same page twice leaves the directory as saving it once, in all three
      variants; only the strict variant reports the repeat as a failure. */
  lemma SavesIdempotent(dir: Dir, name: string, doc: Document)
    ensures SaveKeepExisting(SaveKeepExisting(dir, name, doc).dir, name, doc) == SaveKeepExisting(dir, name, doc)
    ensures SaveOverwrite(SaveOverwrite(dir, name, doc).dir, name, doc) == SaveOverwrite(dir, name, doc)
    ensures var once := SaveIfNew(dir, name, doc);
            SaveIfNew(once.dir, name, doc) == Saved(false, once.dir)
  {
    assert SaveOverwrite(dir, name, doc).dir[name := doc] == dir[name := doc];
  }
}
