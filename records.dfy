/**
 * The catalogue record as the browser holds it (`Dinosaur` in
 * src/data/dinosaurs.ts). Fields the API may leave out are optional; the
 * measurements, classification, image and source objects are carried by the
 * API but read by nothing modelled here, so they are not represented.
 */
module Records {

  import opened Options

  datatype Dinosaur = Dinosaur(
    name: string,
    diet: Option<string>,
    locomotionType: Option<string>,
    temporalRange: Option<string>,
    period: Option<string>,
    description: Option<string>)
}
