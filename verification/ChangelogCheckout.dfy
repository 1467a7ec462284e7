/** The checkout whose files `archive` rewrites in place. */
module ChangelogCheckout {
  import opened Changelog
  import opened ChangelogArchive
  import opened ChangelogPreamble

  /** The files of a checkout, rewritten in place. */
  class Checkout {
    var main: string
    var archives: seq<File>

    function Value(): Tree
      reads this
    {
      Tree(main, archives)
    }

    constructor (t: Tree)
      ensures Value() == t
    {
      main, archives := t.main, t.archives;
    }

    /** Moves a major line to its archive file. In a tidy checkout whose major line has no
        archive file yet, the versions, texts and links read back stay what they were, and
        both files hold exactly what belongs there. Whatever the checkout, what stands around the
        archive note stays. */
    method Archive(major: int)
      modifies this
      ensures Value() == Archived(old(Value()), major)
      ensures Tidy(old(Value())) && !HasFile(old(archives), Target(major)) ==>
                Tidy(Value()) && Collected(Texts(Value())) == Collected(Texts(old(Value())))
      ensures Tidy(old(Value())) ==> Sorted(SplitText(old(main)), SplitText(main), major)
      ensures Moved(SplitText(old(main)), major) != [] && Majors(archives) != [] ==>
                forall a, rest :: Around(SplitText(old(main)).preamble, a, rest) ==> NoteRewritten(Value(), a, rest)
    {
      var p := Split(main);
      ghost var t := Value();
      if Moved(p, major) != [] {
        Rewrite(p, major);
      }
      Keeps(t, p, major);
      Opens(t, p, major);
    }

    method Rewrite(p: Parts, major: int)
      modifies this
      ensures Value() == Rewritten(old(Value()), p, major)
    {
      archives := Put(archives, Target(major), MovedText(p, major));
      main := KeptText(p, major, Majors(archives));
    }
  }

  /** Of the old parts exactly the sections and links of other major lines are left. */
  predicate Sorted(was: Parts, now: Parts, major: int) {
    Moved(was, major) != [] ==> now.sections == Kept(was, major) && now.links == KeptLinks(was, major)
  }

  lemma Opens(t: Tree, p: Parts, major: int)
    requires p == SplitText(t.main)
    ensures Moved(p, major) != [] && Majors(Archived(t, major).archives) != [] ==>
              forall a, rest :: Around(p.preamble, a, rest) ==> NoteRewritten(Archived(t, major), a, rest)
  {
    if Moved(p, major) != [] {
      forall a, rest | Around(p.preamble, a, rest) { ArchivedPreamble(t, p, major, a, rest); }
    }
  }

  lemma Keeps(t: Tree, p: Parts, major: int)
    requires p == SplitText(t.main)
    ensures Tidy(t) && !HasFile(t.archives, Target(major)) ==>
              Tidy(Archived(t, major)) && Collected(Texts(Archived(t, major))) == Collected(Texts(t))
    ensures Tidy(t) ==> Sorted(p, SplitText(Archived(t, major).main), major)
  {
    if Tidy(t) {
      if !HasFile(t.archives, Target(major)) {
        ArchiveStaysTidy(t, p, major);
      }
      if Moved(p, major) != [] {
        TidyEnds(p, major);
        ArchivePlaces(t, p, major);
      }
    }
  }
}
