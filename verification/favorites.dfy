/** The list of `src/components/Favorites.tsx`: the companies whose id has
    been marked, and the cards it renders for them. */
module Favorites {
  import opened CompanyTypes
  import opened Sequences

  /** The callback handed to `filter`: `favorites.has(c.id)`. */
  function InFavorites(favorites: set<string>): Company -> bool
  {
    (c: Company) => c.id in favorites
  }

  /** `favoriteCompanies`: the companies whose id is in `favorites`, in
      directory order, each as often as in the directory. */
  function FavoriteCompanies(cs: seq<Company>, favorites: set<string>): (r: seq<Company>)
    ensures IsSubsequence(r, cs)
    ensures forall c :: c in r <==> c in cs && c.id in favorites
    ensures forall c :: multiset(r)[c] == if c.id in favorites then multiset(cs)[c] else 0
  {
    Filter(cs, InFavorites(favorites))
  }

  /** The ids of the directory's companies. */
  function Ids(cs: seq<Company>): set<string>
  {
    set c | c in cs :: c.id
  }

  /** Ids that match no company are ignored: only the marked ids of the
      directory matter. */
  lemma UnknownIdsIgnored(cs: seq<Company>, favorites: set<string>)
    ensures FavoriteCompanies(cs, favorites) == FavoriteCompanies(cs, favorites * Ids(cs))
  {
    forall i | 0 <= i < |cs|
      ensures InFavorites(favorites)(cs[i]) == InFavorites(favorites * Ids(cs))(cs[i])
    {
      assert cs[i].id in Ids(cs);
    }
    FilterCongruent(cs, InFavorites(favorites), InFavorites(favorites * Ids(cs)));
  }

  /** The "No favorites yet" branch is taken exactly when no company of the
      directory is marked; in particular with nothing marked at all. */
  lemma EmptyStateExactly(cs: seq<Company>, favorites: set<string>)
    ensures |FavoriteCompanies(cs, favorites)| == 0 <==> forall c :: c in cs ==> c.id !in favorites
    ensures favorites == {} ==> FavoriteCompanies(cs, favorites) == []
  {
  }

  /** The properties one `CompanyCard` receives that the model tracks. */
  datatype Card = Card(company: Company, isFavorite: bool)

  /** The card grid: one card per listed company, in list order, each
      rendered with a filled heart. */
  function FavoriteCards(cs: seq<Company>, favorites: set<string>): (cards: seq<Card>)
    ensures |cards| == |FavoriteCompanies(cs, favorites)|
    ensures forall i :: 0 <= i < |cards| ==> cards[i].company == FavoriteCompanies(cs, favorites)[i]
  {
    var list := FavoriteCompanies(cs, favorites);
    seq(|list|, i requires 0 <= i < |list| => Card(list[i], true))
  }

  /** The hard-coded `isFavorite={true}` agrees with the set: every card's
      heart is filled exactly when its company's id is marked. */
  lemma CardsAgreeWithFavorites(cs: seq<Company>, favorites: set<string>)
    ensures forall card :: card in FavoriteCards(cs, favorites) ==>
      card.isFavorite && card.company.id in favorites && card.company in cs
  {
  }
}
