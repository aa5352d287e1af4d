/** The root state: the pair of slice states, each slice reducer applied to every action. */
module Store {
  import opened Actions
  import BusinessSlice
  import ScraperSlice

  datatype RootState = RootState(scraper: ScraperSlice.State, business: BusinessSlice.State)

  const Initial := RootState(ScraperSlice.Initial, BusinessSlice.Initial)

  function Reduce(s: RootState, a: Action): (r: RootState)
    ensures IsBusinessAction(a) ==> r.scraper == s.scraper
    ensures IsScraperAction(a) ==> r.business == s.business
  {
    RootState(ScraperSlice.Reduce(s.scraper, a), BusinessSlice.Reduce(s.business, a))
  }

  function Run(s: RootState, acts: seq<Action>): RootState
    decreases |acts|
  {
    if |acts| == 0 then s else Reduce(Run(s, acts[..|acts| - 1]), acts[|acts| - 1])
  }

  /** Running the store is running each slice on the same action sequence. */
  lemma {:induction false} RunProjects(s: RootState, acts: seq<Action>)
    ensures Run(s, acts) == RootState(ScraperSlice.Run(s.scraper, acts), BusinessSlice.Run(s.business, acts))
    decreases |acts|
  {
    if |acts| > 0 {
      RunProjects(s, acts[..|acts| - 1]);
    }
  }
}
