// Configuration values of the ecosystem simulation (population caps, grid size,
// group, energy and lifetime bounds, aging cost and vegetation growth) and the
// kinds of entity the simulation distinguishes.
module Constants {
  const MAX_VEGETOBOB: int := 400
  const MAX_ERBAST: int := 400
  const MAX_CARVIZ: int := 400

  /** Number of rows and columns of the default grid. */
  const NUMCELLS_R: int := 50
  const NUMCELLS_C: int := 50

  /** Group size below which an animal reaching its lifetime still spawns offspring. */
  const MAX_GROUP: int := 100

  const MAX_ENERGY: int := 100
  const MAX_LIFE: int := 140

  /** Energy lost every tenth day of age. */
  const AGING: real := 1.0

  /** Vegetation density gained per day while below 100. */
  const GROWING: real := 0.5

  /** Density a vegetebob starts with. */
  const INITIAL_DENSITY: real := 5.0

  /** The two animal species: Erbast (herbivore) and Carviz (predator). */
  datatype AnimalKind = Erbast | Carviz

  /** Herds are groups of erbasts, prides are groups of carvizes. */
  datatype GroupKind = Herd | Pride

  function GroupKindOf(kind: AnimalKind): GroupKind
  {
    match kind
    case Erbast => Herd
    case Carviz => Pride
  }

  function OtherKind(kind: AnimalKind): AnimalKind
  {
    match kind
    case Erbast => Carviz
    case Carviz => Erbast
  }

  function MemberKind(kind: GroupKind): AnimalKind
  {
    match kind
    case Herd => Erbast
    case Pride => Carviz
  }

  datatype Option<T> = None | Some(value: T)
}
