/** app/admin/team-stores/page.tsx: the search box over the team stores and
    the team-store inquiries listed on the admin page. A row is kept when
    one of three of its fields contains the term, ignoring case. */
module TeamStoreSearch {
  import opened Common
  import TeamStoresRoute
  import TeamStoreInquiriesRoute

  type TeamStore = TeamStoresRoute.TeamStore
  type Inquiry = TeamStoreInquiriesRoute.TeamStoreInquiry

  /** `a.toLowerCase().includes(term.toLowerCase())` */
  predicate Mentions(a: string, term: string) {
    Includes(Lower(a), Lower(term))
  }

  predicate StoreMatches(term: string, s: TeamStore) {
    Mentions(s.name, term) || Mentions(s.email, term) || Mentions(s.slug, term)
  }

  predicate InquiryMatches(term: string, i: Inquiry) {
    Mentions(i.name, term) || Mentions(i.email, term) || Mentions(i.organization, term)
  }

  function StoreFilter(term: string): TeamStore -> bool {
    s => StoreMatches(term, s)
  }

  function InquiryFilter(term: string): Inquiry -> bool {
    i => InquiryMatches(term, i)
  }

  /** `filteredTeamStores`: the stores whose name, email or slug contains the
      term, in list order. */
  function FilteredTeamStores(stores: seq<TeamStore>, term: string): (r: seq<TeamStore>)
    ensures forall s :: s in r <==> s in stores && StoreMatches(term, s)
    ensures IsSubsequence(r, stores)
  {
    FilterIsSubsequence(stores, StoreFilter(term));
    FilterMembers(stores, StoreFilter(term));
    Filter(stores, StoreFilter(term))
  }

  /** `filteredInquiries`: the inquiries whose name, email or organization
      contains the term, in list order. */
  function FilteredInquiries(inquiries: seq<Inquiry>, term: string): (r: seq<Inquiry>)
    ensures forall i :: i in r <==> i in inquiries && InquiryMatches(term, i)
    ensures IsSubsequence(r, inquiries)
  {
    FilterIsSubsequence(inquiries, InquiryFilter(term));
    FilterMembers(inquiries, InquiryFilter(term));
    Filter(inquiries, InquiryFilter(term))
  }

  /** An empty search box lists everything. */
  lemma EmptyTermKeepsAll(stores: seq<TeamStore>, inquiries: seq<Inquiry>)
    ensures FilteredTeamStores(stores, "") == stores
    ensures FilteredInquiries(inquiries, "") == inquiries
  {
    assert Lower("") == "";
    forall s | s in stores ensures StoreFilter("")(s) {
      IncludesEmpty(Lower(s.name));
    }
    FilterAll(stores, StoreFilter(""));
    forall i | i in inquiries ensures InquiryFilter("")(i) {
      IncludesEmpty(Lower(i.name));
    }
    FilterAll(inquiries, InquiryFilter(""));
  }

  /** Terms that differ only in letter case give the same lists. */
  lemma TermCaseIgnored(stores: seq<TeamStore>, inquiries: seq<Inquiry>, t1: string, t2: string)
    requires Lower(t1) == Lower(t2)
    ensures FilteredTeamStores(stores, t1) == FilteredTeamStores(stores, t2)
    ensures FilteredInquiries(inquiries, t1) == FilteredInquiries(inquiries, t2)
  {
    FilterCongruent(stores, StoreFilter(t1), StoreFilter(t2));
    FilterCongruent(inquiries, InquiryFilter(t1), InquiryFilter(t2));
  }

  /** Searching for a listed store's own slug, in any letter case, finds it. */
  lemma OwnSlugFindsStore(stores: seq<TeamStore>, s: TeamStore, term: string)
    requires s in stores && Lower(term) == Lower(s.slug)
    ensures s in FilteredTeamStores(stores, term)
  {
    assert StartsWith(Lower(s.slug), Lower(term));
  }
}
