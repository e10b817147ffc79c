/** The records the core works on, with the field shapes of the application's database
    schema: nullable columns are `Option`s, `real` columns are exact `real`s, timestamps
    are integer milliseconds since the epoch. */
module Schema {
  import opened Optional
  import opened Seqs

  /** The five Big Five personality dimensions. */
  datatype Trait = Openness | Conscientiousness | Extraversion | Agreeableness | Neuroticism

  /** The dimensions in the fixed order the model iterates them. */
  const AllTraits: seq<Trait> := [Openness, Conscientiousness, Extraversion, Agreeableness, Neuroticism]

  /** One value per dimension: trait scores, running sums or counts. */
  datatype Big5<T> = Big5(openness: T, conscientiousness: T, extraversion: T,
                          agreeableness: T, neuroticism: T)
  {
    function Get(t: Trait): T {
      match t
      case Openness => openness
      case Conscientiousness => conscientiousness
      case Extraversion => extraversion
      case Agreeableness => agreeableness
      case Neuroticism => neuroticism
    }

    /** This record with dimension `t` replaced by `v`. */
    function With(t: Trait, v: T): (r: Big5<T>)
      ensures r.Get(t) == v
      ensures forall u :: u != t ==> r.Get(u) == Get(u)
    {
      match t
      case Openness => this.(openness := v)
      case Conscientiousness => this.(conscientiousness := v)
      case Extraversion => this.(extraversion := v)
      case Agreeableness => this.(agreeableness := v)
      case Neuroticism => this.(neuroticism := v)
    }
  }

  /** Two records that agree on every dimension are equal. */
  lemma SameDimensionsSame<T>(x: Big5<T>, y: Big5<T>)
    requires forall t :: x.Get(t) == y.Get(t)
    ensures x == y
  {
    assert x.Get(Openness) == y.Get(Openness) && x.Get(Conscientiousness) == y.Get(Conscientiousness);
    assert x.Get(Extraversion) == y.Get(Extraversion) && x.Get(Agreeableness) == y.Get(Agreeableness);
    assert x.Get(Neuroticism) == y.Get(Neuroticism);
  }

  /** A personality profile: the five trait scores of an assessment, or a career's
      reference personality vector. */
  type TraitVector = Big5<real>

  /** A stored journal entry. `keywords`, `themes` and `skills` are null until the
      entry has been analysed. */
  datatype JournalEntry = JournalEntry(
    id: string,
    userId: string,
    mood: Option<string>,
    enjoyed: Option<string>,
    challenges: Option<string>,
    learned: Option<string>,
    keywords: Option<seq<string>>,
    themes: Option<seq<string>>,
    skills: Option<seq<string>>,
    createdAt: int)

  /** `entries.flatMap(entry => entry.themes || [])` */
  function AllThemes(entries: seq<JournalEntry>): seq<string> {
    Flatten(seq(|entries|, i requires 0 <= i < |entries| => entries[i].themes.GetOr([])))
  }

  /** `entries.flatMap(entry => entry.skills || [])` */
  function AllSkills(entries: seq<JournalEntry>): seq<string> {
    Flatten(seq(|entries|, i requires 0 <= i < |entries| => entries[i].skills.GetOr([])))
  }

  /** A catalog career. */
  datatype Career = Career(
    id: string,
    title: string,
    description: string,
    salaryMin: Option<int>,
    salaryMax: Option<int>,
    growthRate: Option<real>,
    educationLevel: Option<string>,
    remoteWork: Option<bool>,
    skills: Option<seq<string>>,
    interests: Option<seq<string>>,
    personalityVector: Option<TraitVector>,
    roadmapYear1: Option<string>,
    roadmapYear2: Option<string>,
    roadmapYear3: Option<string>)

  /** One `{ careerId, matchScore }` row handed to the store. */
  datatype Recommendation = Recommendation(careerId: string, matchScore: real)

  /** The ranking key of a recommendation. */
  function MatchScore(r: Recommendation): real {
    r.matchScore
  }
}
